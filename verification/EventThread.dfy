/** The event thread over the heap library, with everything that runs while it polls and inside its callbacks. What
    others do is left open: any API calls, by any thread that can make them, with any outcome. The thread's trace is
    proved to be a run of Machine, so what holds of all runs holds of it. */
module EventThread {
  import opened Events
  import opened Registry
  import opened World
  import opened Machine
  import opened SocketList
  import opened AddressList
  import opened Engine

  type Call = Option<Op<BalSocket>>

  /** The machine's state as the library stands, with the event thread at `pc`. */
  ghost function Now(lib: Library, pc: Pc): State<BalSocket>
    reads lib, lib.sockets, lib.list
  {
    State(lib.Abs(), lib.rdHup, pc)
  }

  /** What a call did to the library, if it did anything. */
  ghost predicate Made(w: World<BalSocket>, call: Call, w': World<BalSocket>) {
    if call == None then w' == w else Callable(w, call.value) && w' == Apply(w, call.value)
  }

  /** A call frees no socket that is registered while async I/O is down. */
  ghost predicate Orderly(w: World<BalSocket>, call: Call) {
    call.Some? && call.value.Destroy? && !w.init ==> !Registered(w, call.value.p)
  }

  // ----- API calls with arbitrary arguments and outcomes -----

  /** A call that makes a socket, from a listener if one is given. */
  method NewSocket(lib: Library, listener: BalSocket?) returns (ghost call: Call)
    requires lib.Valid() && (listener != null ==> listener in lib.sockets)
    modifies lib`sockets
    ensures lib.Valid() && fresh(lib.Repr() - old(lib.Repr()))
    ensures Made(old(lib.Abs()), call, lib.Abs()) && (call.Some? ==> !Locks(call.value))
  {
    hide BalList.Valid, Apply;
    call := None;
    var sd: int, userData: nat, memory: bool := *, *, *;
    var s: BalSocket? := null;
    if listener == null {
      if sd >= -1 {
        s := lib.Create(sd, userData, memory);
        if s != null {
          call := Some(Op<BalSocket>.Create(s, sd, userData));
        }
      }
    } else {
      s := lib.Accept(listener, sd, memory);
      if s != null {
        call := Some(Op<BalSocket>.Accept(listener, s, sd));
      }
    }
  }

  /** A call that touches one socket and takes no mutex. */
  method TouchSocket(lib: Library, s: BalSocket) returns (ghost call: Call)
    requires lib.Valid() && s in lib.sockets
    modifies s
    ensures lib.Valid() && Made(old(lib.Abs()), call, lib.Abs())
    ensures call.Some? && !Locks(call.value)
  {
    hide BalList.Valid, Apply;
    var success: bool := *;
    if
    case true =>
      var ok := lib.CloseDescriptor(s, success);
      call := Some(Op.CloseDescriptor(s, success));
    case true =>
      var how: How := *;
      var ok := lib.Shutdown(s, how, success);
      call := Some(Op.Shutdown(s, how, success));
    case true =>
      var ok := lib.Listen(s, success);
      call := Some(Op.Listen(s, success));
    case true =>
      var infos: seq<Address>, budget: nat, answers: seq<bool> := *, *, *;
      ghost var made;
      var ok;
      ok, made := lib.ConnectHost(s, infos, budget, answers);
      call := Some(Op.Connect(s, ok));
  }

  /** A caller changes the socket's mask or user data itself. */
  method EditSocket(lib: Library, s: BalSocket) returns (ghost call: Call)
    requires lib.Valid() && s in lib.sockets
    modifies s
    ensures lib.Valid() && Made(old(lib.Abs()), call, lib.Abs())
    ensures call.Some? && !Locks(call.value)
  {
    hide BalList.Valid, Apply;
    var word: bv32, data: nat := *, *;
    if
    case true =>
      lib.AddToMask(s, word);
      call := Some(Op.AddToMask(s, word));
    case true =>
      lib.RemoveFromMask(s, word);
      call := Some(Op.RemoveFromMask(s, word));
    case true =>
      lib.SetUserData(s, data);
      call := Some(Op.SetUserData(s, data));
  }

  /** Registers, updates or deregisters a socket, right after the tests or after a pause. */
  method PollSocket(lib: Library, t: nat, s: BalSocket) returns (ghost call: Call)
    requires lib.Valid() && s in lib.sockets && lib.mutex.Available(t)
    modifies lib.list, lib.list.nodes, lib.mutex, s
    ensures lib.Valid() && fresh(lib.Repr() - old(lib.Repr()))
    ensures lib.mutex.owner == old(lib.mutex.owner) && lib.mutex.depth == old(lib.mutex.depth)
    ensures Made(old(lib.Abs()), call, lib.Abs()) && call.Some? && Polls(call.value)
  {
    hide BalList.Valid, ApplyAsyncPoll, AsyncPollStatus, ApplySection, SectionStatus;
    var proc: Option<nat>, mask: bv32, ioMode: bool, memory: bool, late: bool := *, *, *, *, *;
    lib.InHeap(s);
    var status;
    if late && s.Sd() != -1 && (proc == None ==> mask == 0) {
      status := lib.PollSection(t, s, proc, mask, ioMode, memory);
      call := Some(Op.PollSection(s, proc, mask, ioMode, memory));
    } else {
      status := lib.AsyncPoll(t, s, proc, mask, ioMode, memory);
      call := Some(Op.AsyncPoll(s, proc, mask, ioMode, memory));
    }
  }

  /** Whether freeing the socket is in order: async I/O is up, or the socket is not on the list. */
  method MayFree(lib: Library, t: nat, s: BalSocket) returns (may: bool)
    requires lib.Valid() && s in lib.sockets && lib.mutex.Available(t) && Safe(lib.Abs())
    modifies lib.mutex
    ensures lib.Valid()
    ensures lib.mutex.owner == old(lib.mutex.owner) && lib.mutex.depth == old(lib.mutex.depth)
    ensures may <==> lib.init || !Registered(lib.Abs(), s)
  {
    hide BalList.Valid, Registered, Safe;
    lib.InHeap(s);
    RegisteredUnderOwnDescriptor(lib.Abs(), s);
    lib.mutex.Lock(t);
    var holder := lib.Lookup(t, s.Sd());
    lib.mutex.Unlock(t);
    may := lib.init || holder != Some(s);
  }

  /** Frees a socket if that is in order. */
  method FreeSocket(lib: Library, t: nat, s: BalSocket) returns (ghost call: Call)
    requires lib.Valid() && s in lib.sockets && lib.mutex.Available(t) && Safe(lib.Abs())
    modifies lib`sockets, lib.list, lib.list.nodes, lib.mutex, s
    ensures lib.Valid() && fresh(lib.Repr() - old(lib.Repr()))
    ensures lib.mutex.owner == old(lib.mutex.owner) && lib.mutex.depth == old(lib.mutex.depth)
    ensures Made(old(lib.Abs()), call, lib.Abs()) && Orderly(old(lib.Abs()), call)
  {
    hide BalList.Valid, ApplyDestroy, Registered, Safe;
    call := None;
    lib.InHeap(s);
    var may := MayFree(lib, t, s);
    if may {
      lib.Destroy(t, s);
      call := Some(Op.Destroy(s));
    }
  }

  /** One API call by thread `t`; calls that need the mutex only if `t` can have it. */
  method AnyCall(lib: Library, t: nat) returns (ghost call: Call)
    requires lib.Valid() && Safe(lib.Abs())
    modifies lib.Repr()
    ensures lib.Valid() && fresh(lib.Repr() - old(lib.Repr())) && Safe(lib.Abs())
    ensures lib.mutex.owner == old(lib.mutex.owner) && lib.mutex.depth == old(lib.mutex.depth)
    ensures Made(old(lib.Abs()), call, lib.Abs()) && Orderly(old(lib.Abs()), call)
    ensures call.Some? && Locks(call.value) ==> old(lib.mutex.Available(t))
  {
    hide BalList.Valid, Apply, Registered, Safe;
    var which: nat := *;
    var other: BalSocket? := null;
    if lib.sockets != {} {
      other :| other in lib.sockets;
    }
    if other != null && lib.mutex.Available(t) && which == 0 {
      call := PollSocket(lib, t, other);
    } else if other != null && lib.mutex.Available(t) && which == 1 {
      call := FreeSocket(lib, t, other);
    } else if other != null && which == 2 {
      call := TouchSocket(lib, other);
    } else if other != null && which == 3 {
      call := EditSocket(lib, other);
    } else {
      call := NewSocket(lib, other);
    }
    if call.Some? {
      ApplyKeepsSafe(old(lib.Abs()), call.value);
    }
  }

  // ----- What happens between two statements of the event thread -----

  ghost predicate Foreign(l: Label<BalSocket>) {
    l.User? || l.Handler? || l.StoreInit? || l.StoreDie?
  }

  /** A call made while the event thread `t` is at `pc`: by the thread itself, from a callback, or by another one. */
  method OneCall(lib: Library, t: nat, u: nat, ghost pc: Pc) returns (ghost ls: seq<Label<BalSocket>>)
    requires lib.Valid() && Clean(Now(lib, pc)) && pc.WellFormed()
    requires lib.mutex.owner == if pc.HoldsMutex() then Some(t) else None
    requires u == t ==> pc.InCallback?
    modifies lib.Repr()
    ensures lib.Valid() && fresh(lib.Repr() - old(lib.Repr()))
    ensures lib.mutex.owner == old(lib.mutex.owner) && lib.mutex.depth == old(lib.mutex.depth)
    ensures Leads(old(Now(lib, pc)), ls, Now(lib, pc)) && forall l | l in ls :: Foreign(l)
  {
    hide BalList.Valid, Apply, Registered, Safe, Library.Abs, Leads;
    ghost var before := Now(lib, pc);
    var call := AnyCall(lib, u);
    ls := [];
    LeadsNowhere(before);
    if call.Some? {
      ghost var l := if u == t then Handler(call.value) else User(call.value);
      LeadsNext(before, [], before, l);
      assert [] + [l] == [l];
      ls := [l];
    }
  }

  /** A store to one of the two flags, by a thread inside bal_init or bal_cleanup. */
  method OneStore(lib: Library, ghost pc: Pc) returns (ghost ls: seq<Label<BalSocket>>)
    requires lib.Valid() && pc.WellFormed()
    modifies lib`init, lib`die
    ensures lib.Valid() && lib.Repr() == old(lib.Repr())
    ensures Leads(old(Now(lib, pc)), ls, Now(lib, pc)) && forall l | l in ls :: Foreign(l)
  {
    hide BalList.Valid, Leads;
    var value: bool, which: bool := *, *;
    ghost var before := Now(lib, pc);
    if which {
      lib.init := value;
    } else {
      lib.die := value;
    }
    ghost var l: Label<BalSocket> := if which then StoreInit(value) else StoreDie(value);
    LeadsNowhere(before);
    LeadsNext(before, [], before, l);
    assert [] + [l] == [l];
    ls := [l];
    assert lib.Heap() == old(lib.Heap());
  }

  /** Any number of such calls and stores. */
  method Interference(lib: Library, t: nat, ghost pc: Pc) returns (ghost ls: seq<Label<BalSocket>>)
    requires lib.Valid() && Clean(Now(lib, pc)) && pc.WellFormed()
    requires lib.mutex.owner == if pc.HoldsMutex() then Some(t) else None
    requires pc.HoldsMutex() ==> pc.InCallback?
    modifies lib.Repr()
    ensures lib.Valid() && fresh(lib.Repr() - old(lib.Repr()))
    ensures lib.mutex.owner == old(lib.mutex.owner) && lib.mutex.depth == old(lib.mutex.depth)
    ensures Leads(old(Now(lib, pc)), ls, Now(lib, pc)) && Clean(Now(lib, pc)) && forall l | l in ls :: Foreign(l)
  {
    hide BalList.Valid, Apply, Registered, Safe, Library.Abs, Leads, Clean;
    ghost var before := Now(lib, pc);
    ls := [];
    LeadsNowhere(before);
    var n :| n >= 0;
    for i := 0 to n
      invariant lib.Valid() && fresh(lib.Repr() - old(lib.Repr()))
      invariant lib.mutex.owner == old(lib.mutex.owner) && lib.mutex.depth == old(lib.mutex.depth)
      invariant Leads(before, ls, Now(lib, pc)) && Clean(Now(lib, pc)) && forall l | l in ls :: Foreign(l)
    {
      ghost var mid, more := Now(lib, pc), [];
      var store: bool, u: nat := *, *;
      if store {
        more := OneStore(lib, pc);
      } else if lib.mutex.owner == Some(t) || u != t {
        more := OneCall(lib, t, u, pc);
      } else {
        LeadsNowhere(mid);
      }
      LeadsOn(before, ls, mid, more, Now(lib, pc));
      LeadsClean(mid, more, Now(lib, pc));
      ls := ls + more;
    }
  }

  // ----- One pass -----

  /** What the system answers in one round: whether memory suffices for poll()'s array, whether poll() has something to
      report, and for each slot what it reports, whether the socket listens, and whether its peer has gone. */
  datatype Answer = Answer(memory: bool, ready: bool, report: nat -> bv16,
                           listening: nat -> bool, peerClosed: nat -> bool)

  /** Steps of the event thread in which it learns something. */
  predicate Learns(l: Label<BalSocket>) {
    l.CheckDie? || l.Snapshot? || l.PollReturns? || l.Serve?
  }

  /** These steps of a run, in order. */
  ghost function Learned(ls: seq<Label<BalSocket>>): seq<Label<BalSocket>> {
    if ls == [] then [] else (if Learns(ls[0]) then [ls[0]] else []) + Learned(ls[1..])
  }

  lemma {:induction false} LearnedOn(a: seq<Label<BalSocket>>, b: seq<Label<BalSocket>>)
    ensures Learned(a + b) == Learned(a) + Learned(b)
  {
    if a == [] {
      assert a + b == b;
    } else {
      assert (a + b)[0] == a[0] && (a + b)[1..] == a[1..] + b;
      LearnedOn(a[1..], b);
    }
  }

  lemma {:induction false} NothingLearned(ls: seq<Label<BalSocket>>)
    requires forall l | l in ls :: !Learns(l)
    ensures Learned(ls) == []
  {
    if ls != [] {
      assert ls[0] in ls;
      NothingLearned(ls[1..]);
    }
  }

  lemma OneLearned(l: Label<BalSocket>)
    ensures Learned([l]) == if Learns(l) then [l] else []
  {
    assert [l][1..] == [];
  }

  ghost function TurnSteps(answer: Answer, n: nat): seq<Label<BalSocket>> {
    seq(n, k requires 0 <= k < n => Serve(answer.listening(k), answer.peerClosed(k)))
  }

  /** The steps of one pass over a list of `n` sockets: the snapshot; if there is something to poll, poll()'s answer;
      and if that reports anything, one turn for each slot. */
  ghost function PassSteps(answer: Answer, n: nat): seq<Label<BalSocket>> {
    [Snapshot(answer.memory)] +
    (if n == 0 || !answer.memory then []
     else [PollReturns(answer.ready, seq(n, answer.report))] + (if answer.ready then TurnSteps(answer, n) else []))
  }

  /** The first half of _bal_dispatch_events, up to the callback: `calling` says that one is made. */
  method StartDispatch(lib: Library, s: BalSocket, events: bv32, listening: bool, peerClosed: bool, ghost pc: Pc)
    returns (calling: bool, drop: bool)
    requires lib.Valid() && Clean(Now(lib, pc))
    requires pc.Serving? && pc.WellFormed() && pc.turn < |pc.fds| && Target(Now(lib, pc)) == Some(s)
    requires events == PollFlagsToEvents(lib.rdHup, pc.revents[pc.turn])
    modifies s
    ensures lib.Valid() && Enabled(old(Now(lib, pc)), Serve(listening, peerClosed))
    ensures ServeStep(old(Now(lib, pc)), Serve(listening, peerClosed)) ==
      if calling then Now(lib, InCallback(pc.fds, pc.revents, pc.turn, drop))
      else State(Dropped(lib.Abs(), pc.fds[pc.turn].fd, drop), lib.rdHup, Serving(pc.fds, pc.revents, pc.turn + 1))
  {
    hide BalList.Valid, Translate, PollFlagsToEvents;
    assert s in lib.sockets;
    lib.InHeap(s);
    var out;
    out, drop := s.TranslateEvents(events, lib.rdHup, listening, peerClosed);
    calling := out != 0 && s.Proc() != None;
    lib.OneSocketChanged(s);
  }

  ghost function NextTurn(pc: Pc): Pc
    requires pc.Serving? && pc.turn < |pc.fds|
  {
    Serving(pc.fds, pc.revents, pc.turn + 1)
  }

  lemma TargetIsLive(lib: Library, pc: Pc, s: BalSocket)
    requires pc.Serving? && pc.WellFormed() && pc.turn < |pc.fds| && Target(Now(lib, pc)) == Some(s)
    ensures s in lib.sockets
  {
  }

  lemma CallbackTeaches(l: Label<BalSocket>, during: seq<Label<BalSocket>>)
    requires l.Serve? && forall k | k in during :: Foreign(k)
    ensures Learned([l] + during + [CallbackReturns]) == [l]
  {
    NothingLearned(during + [CallbackReturns]);
    OneLearned(l);
    LearnedOn([l], during + [CallbackReturns]);
    assert [l] + during + [CallbackReturns] == [l] + (during + [CallbackReturns]);
  }

  /** _bal_dispatch_events. The callback may do anything, also to the socket it is called for; after it, only the
      descriptor is used. */
  method DispatchEvents(lib: Library, t: nat, sd: int, s: BalSocket, events: bv32, listening: bool, peerClosed: bool,
                        ghost pc: Pc)
    returns (ghost ls: seq<Label<BalSocket>>)
    requires lib.Valid() && Clean(Now(lib, pc)) && lib.mutex.owner == Some(t)
    requires pc.Serving? && pc.WellFormed() && pc.turn < |pc.fds| && Target(Now(lib, pc)) == Some(s)
    requires sd == pc.fds[pc.turn].fd && events == PollFlagsToEvents(lib.rdHup, pc.revents[pc.turn])
    modifies lib.Repr()
    ensures lib.Valid() && fresh(lib.Repr() - old(lib.Repr()))
    ensures lib.mutex.owner == old(lib.mutex.owner) && lib.mutex.depth == old(lib.mutex.depth)
    ensures Leads(old(Now(lib, pc)), ls, Now(lib, NextTurn(pc))) && Clean(Now(lib, NextTurn(pc)))
    ensures Learned(ls) == [Serve(listening, peerClosed)]
  {
    hide BalList.Valid, RecursiveMutex.Valid, Library.Abs, Leads, Target, ServeStep, Dropped, Step, Enabled, Clean;
    hide Safe, PollFlagsToEvents, Learned;
    ghost var before := Now(lib, pc);
    OneLearned(Serve(listening, peerClosed));
    TargetIsLive(lib, pc, s);
    var calling, drop := StartDispatch(lib, s, events, listening, peerClosed, pc);
    ghost var l: Label<BalSocket> := Serve(listening, peerClosed);
    ghost var mid := ServeStep(before, l);
    ServeLeads(before, l);
    ls := [l];
    LeadsClean(before, ls, mid);
    if calling {
      ghost var at := InCallback(pc.fds, pc.revents, pc.turn, drop);
      ghost var during := Interference(lib, t, at);
      LeadsOn(before, ls, mid, during, Now(lib, at));
      ReturnLeads(before, ls + during, Now(lib, at));
      CallbackTeaches(l, during);
      ls := ls + during + [CallbackReturns];
    }
    lib.Drop(t, sd, drop);
    LeadsClean(before, ls, Now(lib, NextTurn(pc)));
  }

  /** One turn of the serving loop: look the descriptor up again, and dispatch if it is still there and has events. */
  method ServeTurn(lib: Library, t: nat, fd: int, flags: bv16, listening: bool, peerClosed: bool, ghost pc: Pc)
    returns (ghost ls: seq<Label<BalSocket>>)
    requires lib.Valid() && Clean(Now(lib, pc)) && lib.mutex.owner == Some(t)
    requires pc.Serving? && pc.WellFormed() && pc.turn < |pc.fds|
    requires fd == pc.fds[pc.turn].fd && flags == pc.revents[pc.turn]
    modifies lib.Repr()
    ensures lib.Valid() && fresh(lib.Repr() - old(lib.Repr()))
    ensures lib.mutex.owner == old(lib.mutex.owner) && lib.mutex.depth == old(lib.mutex.depth)
    ensures Leads(old(Now(lib, pc)), ls, Now(lib, NextTurn(pc))) && Clean(Now(lib, NextTurn(pc)))
    ensures Learned(ls) == [Serve(listening, peerClosed)]
  {
    hide BalList.Valid, Leads, PollFlagsToEvents, RecursiveMutex.Valid, Translate, Learned;
    ghost var before := Now(lib, pc);
    var s := lib.Lookup(t, fd);
    if s.Some? {
      FoundIsLive(lib.Abs(), fd);
      assert s.value in lib.sockets;
      if s.value.Sd() != -1 {
        var events := PollFlagsToEvents(lib.rdHup, flags);
        if events != 0 {
          ls := DispatchEvents(lib, t, fd, s.value, events, listening, peerClosed, pc);
          return;
        }
      }
    }
    ServeLeads(before, Serve(listening, peerClosed));
    ls := [Serve(listening, peerClosed)];
    OneLearned(Serve(listening, peerClosed));
  }

  /** The serving loop. */
  method ServeAll(lib: Library, t: nat, fds: array<PollFd>, revents: seq<bv16>, answer: Answer)
    returns (ghost ls: seq<Label<BalSocket>>)
    requires fds !in lib.Repr() && |revents| == fds.Length
    requires lib.Valid() && Clean(Now(lib, Serving(fds[..], revents, 0))) && lib.mutex.owner == Some(t)
    modifies lib.Repr()
    ensures lib.Valid() && fresh(lib.Repr() - old(lib.Repr()))
    ensures lib.mutex.owner == old(lib.mutex.owner) && lib.mutex.depth == old(lib.mutex.depth)
    ensures var polled := old(fds[..]);
      && Leads(old(Now(lib, Serving(polled, revents, 0))), ls, Now(lib, Serving(polled, revents, |polled|)))
      && Clean(Now(lib, Serving(polled, revents, |polled|)))
    ensures Learned(ls) == TurnSteps(answer, fds.Length)
  {
    hide BalList.Valid, Leads, Clean, Library.Abs, RecursiveMutex.Valid, Learned;
    NothingLearned([]);
    ghost var polled := fds[..];
    ghost var before := Now(lib, Serving(polled, revents, 0));
    ls := [];
    LeadsNowhere(before);
    for n := 0 to fds.Length
      invariant fds !in lib.Repr() && fds[..] == polled
      invariant lib.Valid() && fresh(lib.Repr() - old(lib.Repr()))
      invariant lib.mutex.owner == old(lib.mutex.owner) && lib.mutex.depth == old(lib.mutex.depth)
      invariant Leads(before, ls, Now(lib, Serving(polled, revents, n))) && Clean(Now(lib, Serving(polled, revents, n)))
      invariant Learned(ls) == TurnSteps(answer, n)
    {
      ghost var pc := Serving(polled, revents, n);
      ghost var mid := Now(lib, pc);
      ghost var turn := ServeTurn(lib, t, fds[n].fd, revents[n], answer.listening(n), answer.peerClosed(n), pc);
      LeadsOn(before, ls, mid, turn, Now(lib, NextTurn(pc)));
      LearnedOn(ls, turn);
      ls := ls + turn;
    }
  }

  /** Takes the snapshot for poll(): null when the list is empty or memory runs out. The mutex is held from before the
      list is counted until the array is filled. */
  method TakeSnapshot(lib: Library, t: nat, memory: bool) returns (fds: array?<PollFd>)
    requires lib.Valid() && Clean(Now(lib, Locking)) && lib.mutex.owner == None
    modifies lib.list`iter, lib.list`cursor, lib.mutex
    ensures lib.Valid() && lib.Repr() == old(lib.Repr()) && lib.mutex.owner == Some(t) && lib.mutex.depth == 1
    ensures fds == null <==> old(lib.list.contents) == [] || !memory
    ensures fds != null ==> fresh(fds) && fds.Length == |old(lib.list.contents)|
    ensures Enabled(old(Now(lib, Locking)), Snapshot(memory))
    ensures Step(old(Now(lib, Locking)), Snapshot(memory))
         == Now(lib, if fds == null then LoopHead else Polling(fds[..]))
  {
    hide BalList.Valid, MaskToPollFlags, PollArray;
    lib.mutex.Lock(t);
    fds := null;
    var count := lib.Count(t);
    lib.NoSocketChanged();
    if count > 0 && memory {
      var slots := new PollFd[count];
      lib.Fill(t, slots);
      fds := slots;
    }
  }

  /** One round of the event thread's loop. poll() is called with the mutex free, all else happens with it held. */
  method EventPass(lib: Library, t: nat, answer: Answer) returns (ghost ls: seq<Label<BalSocket>>)
    requires lib.Valid() && Clean(Now(lib, Locking)) && lib.mutex.owner == None
    modifies lib.Repr()
    ensures lib.Valid() && fresh(lib.Repr() - old(lib.Repr())) && lib.mutex.owner == None
    ensures Leads(old(Now(lib, Locking)), ls, Now(lib, LoopHead)) && Clean(Now(lib, LoopHead))
    ensures Learned(ls) == PassSteps(answer, |old(lib.list.contents)|)
  {
    hide BalList.Valid, Leads, Clean, Library.Abs, Step, Enabled, Learned, TurnSteps;
    ghost var before := Now(lib, Locking);
    LeadsNowhere(before);
    var fds := TakeSnapshot(lib, t, answer.memory);
    ghost var l: Label<BalSocket> := Snapshot(answer.memory);
    ThreadLeads(before, [], before, l);
    ls := [] + [l];
    LeadsClean(before, ls, Step(before, l));
    assert ls == [l];
    OneLearned(l);
    if fds != null {
      lib.mutex.Unlock(t);
      ghost var more := PollAndServe(lib, t, fds, answer);
      LeadsOn(before, ls, Step(before, l), more, Now(lib, LoopHead));
      LearnedOn(ls, more);
      ls := ls + more;
      LeadsClean(before, ls, Now(lib, LoopHead));
    }
    lib.mutex.Unlock(t);
  }

  /** poll(), which is called with the mutex free: others run until it returns. */
  method Poll(lib: Library, t: nat, fds: array<PollFd>) returns (ghost ls: seq<Label<BalSocket>>)
    requires lib.Valid() && Clean(Now(lib, Polling(fds[..]))) && lib.mutex.owner == None && fds !in lib.Repr()
    modifies lib.Repr()
    ensures lib.Valid() && fresh(lib.Repr() - old(lib.Repr())) && lib.mutex.owner == None
    ensures fds[..] == old(fds[..]) && forall l | l in ls :: Foreign(l)
    ensures Leads(old(Now(lib, Polling(fds[..]))), ls, Now(lib, Polling(fds[..]))) && Clean(Now(lib, Polling(fds[..])))
  {
    hide BalList.Valid, Leads, Clean, Library.Abs;
    ls := Interference(lib, t, Polling(fds[..]));
  }

  /** poll(), and serving what it reports. Returns with the mutex held. */
  method PollAndServe(lib: Library, t: nat, fds: array<PollFd>, answer: Answer)
    returns (ghost ls: seq<Label<BalSocket>>)
    requires lib.Valid() && Clean(Now(lib, Polling(fds[..]))) && lib.mutex.owner == None && fds !in lib.Repr()
    modifies lib.Repr()
    ensures lib.Valid() && fresh(lib.Repr() - old(lib.Repr())) && lib.mutex.owner == Some(t) && lib.mutex.depth == 1
    ensures Leads(old(Now(lib, Polling(fds[..]))), ls, Now(lib, LoopHead))
    ensures Learned(ls) == [PollReturns(answer.ready, seq(fds.Length, answer.report))]
                           + (if answer.ready then TurnSteps(answer, fds.Length) else [])
  {
    hide BalList.Valid, Leads, Clean, Library.Abs, Learned, TurnSteps;
    ghost var polled := fds[..];
    ghost var before := Now(lib, Polling(polled));
    ls := Poll(lib, t, fds);
    ghost var back := Now(lib, Polling(polled));
    lib.mutex.Lock(t);
    var revents := seq(fds.Length, answer.report);
    ghost var l: Label<BalSocket> := PollReturns(answer.ready, revents);
    ThreadLeads(before, ls, back, l);
    NothingLearned(ls);
    OneLearned(l);
    LearnedOn(ls, [l]);
    ls := ls + [l];
    LeadsClean(before, ls, Step(back, l));
    if answer.ready {
      ghost var served := ServeAll(lib, t, fds, revents, answer);
      ghost var done := Now(lib, Serving(polled, revents, |polled|));
      LeadsOn(before, ls, Step(back, l), served, done);
      ThreadLeads(before, ls + served, done, EndPass);
      OneLearned(EndPass);
      LearnedOn(ls, served);
      LearnedOn(ls + served, [EndPass]);
      ls := ls + served + [EndPass];
    }
  }

  /** A pass, and what others do before the event thread gets the mutex for it. `n` is the list's length by then. */
  method OthersAndPass(lib: Library, t: nat, answer: Answer) returns (ghost ls: seq<Label<BalSocket>>, ghost n: nat)
    requires lib.Valid() && Clean(Now(lib, Locking)) && lib.mutex.owner == None
    modifies lib.Repr()
    ensures lib.Valid() && fresh(lib.Repr() - old(lib.Repr())) && lib.mutex.owner == None
    ensures Leads(old(Now(lib, Locking)), ls, Now(lib, LoopHead)) && Clean(Now(lib, LoopHead))
    ensures Learned(ls) == PassSteps(answer, n)
  {
    hide BalList.Valid, Leads, Clean, Library.Abs, Learned, PassSteps;
    ghost var before := Now(lib, Locking);
    ls := Interference(lib, t, Locking);
    ghost var now := Now(lib, Locking);
    NothingLearned(ls);
    n := |lib.list.contents|;
    ghost var pass := EventPass(lib, t, answer);
    LeadsOn(before, ls, now, pass, Now(lib, LoopHead));
    LearnedOn(ls, pass);
    ls := ls + pass;
  }

  /** Tests `die` and either leaves the loop or makes a pass; others may run before the test and before the pass. */
  method Round(lib: Library, t: nat, answer: Answer)
    returns (exited: bool, ghost ls: seq<Label<BalSocket>>, ghost n: nat)
    requires lib.Valid() && Clean(Now(lib, LoopHead)) && lib.mutex.owner == None
    modifies lib.Repr()
    ensures lib.Valid() && fresh(lib.Repr() - old(lib.Repr())) && lib.mutex.owner == None
    ensures var end := Now(lib, if exited then Exited else LoopHead);
      Leads(old(Now(lib, LoopHead)), ls, end) && Clean(end)
    ensures Learned(ls) == [CheckDie] + (if exited then [] else PassSteps(answer, n))
  {
    hide BalList.Valid, Leads, Clean, Registered, Safe, Learned, PassSteps;
    ghost var before := Now(lib, LoopHead);
    ls := Interference(lib, t, LoopHead);
    exited := lib.die;
    ThreadLeads(before, ls, Now(lib, LoopHead), CheckDie);
    NothingLearned(ls);
    OneLearned(CheckDie);
    LearnedOn(ls, [CheckDie]);
    ls, n := ls + [CheckDie], 0;
    LeadsClean(before, ls, Now(lib, if exited then Exited else Locking));
    if !exited {
      ghost var mid := Now(lib, Locking);
      ghost var pass;
      pass, n := OthersAndPass(lib, t, answer);
      LeadsOn(before, ls, mid, pass, Now(lib, LoopHead));
      LearnedOn(ls, pass);
      ls := ls + pass;
    }
  }

  /** The steps of the first rounds, one for each list length. */
  ghost function LoopSteps(answers: seq<Answer>, lengths: seq<nat>): seq<Label<BalSocket>>
    requires |lengths| <= |answers|
  {
    if lengths == [] then []
    else
      var last := |lengths| - 1;
      LoopSteps(answers, lengths[..last]) + [CheckDie] + PassSteps(answers[last], lengths[last])
  }

  /** The event thread, for at most so many rounds: unless it is told to leave, it makes a full pass in each. */
  method EventLoop(lib: Library, t: nat, answers: seq<Answer>)
    returns (exited: bool, ghost ls: seq<Label<BalSocket>>, ghost lengths: seq<nat>)
    requires lib.Valid() && Clean(Now(lib, LoopHead)) && lib.mutex.owner == None
    modifies lib.Repr()
    ensures lib.Valid() && fresh(lib.Repr() - old(lib.Repr())) && lib.mutex.owner == None
    ensures var end := Now(lib, if exited then Exited else LoopHead);
      Leads(old(Now(lib, LoopHead)), ls, end) && Clean(end)
    ensures |lengths| <= |answers| && (!exited ==> |lengths| == |answers|)
    ensures Learned(ls) == LoopSteps(answers, lengths) + (if exited then [CheckDie] else [])
  {
    hide BalList.Valid, Leads, Clean, Library.Abs, Learned, PassSteps;
    ghost var before := Now(lib, LoopHead);
    exited, ls, lengths := false, [], [];
    LeadsNowhere(before);
    NothingLearned([]);
    for round := 0 to |answers|
      invariant lib.Valid() && fresh(lib.Repr() - old(lib.Repr())) && lib.mutex.owner == None
      invariant !exited && Leads(before, ls, Now(lib, LoopHead)) && Clean(Now(lib, LoopHead))
      invariant |lengths| == round && Learned(ls) == LoopSteps(answers, lengths)
    {
      ghost var start := Now(lib, LoopHead);
      ghost var more, n;
      exited, more, n := Round(lib, t, answers[round]);
      LeadsOn(before, ls, start, more, Now(lib, if exited then Exited else LoopHead));
      LearnedOn(ls, more);
      ls := ls + more;
      if exited {
        return;
      }
      assert (lengths + [n])[..round] == lengths;
      lengths := lengths + [n];
    }
  }
}
