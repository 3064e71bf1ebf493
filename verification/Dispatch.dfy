/** How the C++ wrappers sit on the library: each act is a sequence of API calls, and the wrappers' event callback runs
    handlers one after the other until one of them declines. */
module Dispatch {
  import opened Events
  import opened Registry
  import opened World
  import opened Machine
  import opened Ownership

  // ----- Acts are sequences of API calls -----

  ghost predicate CallableAll<P>(w: World<P>, ops: seq<Op<P>>)
    decreases |ops|
  {
    ops == [] || (Callable(w, ops[0]) && CallableAll(Apply(w, ops[0]), ops[1..]))
  }

  ghost function ApplyAll<P>(w: World<P>, ops: seq<Op<P>>): World<P>
    requires CallableAll(w, ops)
    decreases |ops|
  {
    if ops == [] then w else ApplyAll(Apply(w, ops[0]), ops[1..])
  }

  /** The calls lead from one world to the other. */
  ghost predicate CallsLead<P>(w: World<P>, ops: seq<Op<P>>, end: World<P>) {
    CallableAll(w, ops) && ApplyAll(w, ops) == end
  }

  lemma NoCalls<P>(w: World<P>)
    ensures CallsLead(w, [], w)
  {
  }

  lemma OneCall<P>(w: World<P>, op: Op<P>)
    requires Callable(w, op)
    ensures CallsLead(w, [op], Apply(w, op))
  {
    assert CallableAll(Apply(w, op), [op][1..]);
  }

  lemma {:induction false} CallsLeadOn<P>(w: World<P>, a: seq<Op<P>>, mid: World<P>, b: seq<Op<P>>, end: World<P>)
    requires CallsLead(w, a, mid) && CallsLead(mid, b, end)
    ensures CallsLead(w, a + b, end)
    decreases |a|
  {
    if a == [] {
      assert a + b == b;
    } else {
      assert (a + b)[0] == a[0] && (a + b)[1..] == a[1..] + b;
      CallsLeadOn(Apply(w, a[0]), a[1..], mid, b, end);
    }
  }

  function UserDataCall<P>(s: Option<P>, data: nat): seq<Op<P>> {
    if s.Some? then [Op.SetUserData(s.value, data)] else []
  }

  function AttachCalls<P>(d: Desk<P>, id: nat, s: Option<P>): seq<Op<P>>
    requires id in d.holders
  {
    UserDataCall(d.holders[id].held, 0) + UserDataCall(s, id)
  }

  function CloseCalls<P>(p: P, success: bool, destroy: bool): seq<Op<P>> {
    [Op.CloseDescriptor(p, success)] + (if destroy then [Op.Destroy(p)] else [])
  }

  /** The API calls and user-data writes that an act comes to. */
  ghost function Calls<P>(d: Desk<P>, a: Act<P>): seq<Op<P>>
    requires Routed(d) && Possible(d, a)
  {
    match a
    case CreateIn(id, made) =>
      AttachCalls(d, id, None) + (if made.Some? then [Op.Create(made.value.0, made.value.1, id)] else [])
    case AcceptInto(listener, client, made) =>
      AttachCalls(d, client, None) +
      (if listener != client && d.holders[listener].held.Some? && made.Some?
       then [Op.Accept(d.holders[listener].held.value, made.value.0, made.value.1)]
            + UserDataCall(Some(made.value.0), client)
       else [])
    case Attach(id, p) => AttachCalls(d, id, Some(p))
    case Detach(id) => AttachCalls(d, id, None)
    case Assign(to, from) =>
      AttachCalls(d, from, None) + AttachCalls(AttachTo(d, from, None), to, d.holders[from].held)
    case Close(id, success, destroy) =>
      if d.holders[id].held.Some? then CloseCalls(d.holders[id].held.value, success, destroy) else []
    case Destruct(id, success) =>
      if d.holders[id].held.Some?
      then [Op.AsyncPoll(d.holders[id].held.value, None, 0, true, true)]
           + CloseCalls(d.holders[id].held.value, success, true)
      else []
    case Raw(op) => [op]
    case _ => []
  }

  lemma UserDataIsCall<P>(w: World<P>, s: Option<P>, data: nat)
    requires Live(w, s)
    ensures CallsLead(w, UserDataCall(s, data), WithUserData(w, s, data))
  {
    if s.Some? {
      OneCall(w, Op.SetUserData(s.value, data));
    }
  }

  lemma AttachIsCalls<P>(d: Desk<P>, id: nat, s: Option<P>)
    requires id in d.holders && Live(d.w, d.holders[id].held) && Live(d.w, s)
    ensures CallsLead(d.w, AttachCalls(d, id, s), AttachTo(d, id, s).w)
  {
    hide CallsLead, WithUserData, UserDataCall;
    var w := WithUserData(d.w, d.holders[id].held, 0);
    UserDataIsCall(d.w, d.holders[id].held, 0);
    UserDataIsCall(w, s, id);
    CallsLeadOn(d.w, UserDataCall(d.holders[id].held, 0), w, UserDataCall(s, id), WithUserData(w, s, id));
  }

  lemma CloseIsCalls<P>(d: Desk<P>, id: nat, p: P, success: bool, destroy: bool)
    requires id in d.holders && p in d.w.heap && d.w.heap[p].sd != -1
    ensures CallsLead(d.w, CloseCalls(p, success, destroy), Closed(d, id, p, success, destroy).w)
  {
    hide CallsLead;
    var w := Apply(d.w, Op.CloseDescriptor(p, success));
    OneCall(d.w, Op.CloseDescriptor(p, success));
    if destroy {
      OneCall(w, Op.Destroy(p));
      CallsLeadOn(d.w, [Op.CloseDescriptor(p, success)], w, [Op.Destroy(p)], Apply(w, Op.Destroy(p)));
    } else {
      assert [Op.CloseDescriptor(p, success)] + [] == [Op.CloseDescriptor(p, success)];
    }
  }

  lemma CreateIsCalls<P>(d: Desk<P>, id: nat, made: Option<(P, int)>)
    requires Routed(d) && Possible(d, Act.CreateIn(id, made))
    ensures CallsLead(d.w, Calls(d, Act.CreateIn(id, made)), Do(d, Act.CreateIn(id, made)).w)
  {
    hide CallsLead, AttachTo, AttachCalls, Apply;
    HeldIsLive(d, id);
    AttachIsCalls(d, id, None);
    var d1 := AttachTo(d, id, None);
    if made.Some? {
      var op := Op.Create(made.value.0, made.value.1, id);
      OneCall(d1.w, op);
      CallsLeadOn(d.w, AttachCalls(d, id, None), d1.w, [op], Apply(d1.w, op));
    } else {
      assert AttachCalls(d, id, None) + [] == AttachCalls(d, id, None);
    }
  }

  /** Accepting into a wrapper that has just been emptied. */
  lemma AcceptedIsCalls<P>(d: Desk<P>, listener: nat, client: nat, made: Option<(P, int)>)
    requires Routed(d) && listener in d.holders && client in d.holders && d.holders[client].held == None
    requires made.Some? ==> made.value.0 !in d.w.heap && made.value.1 > 0
    ensures CallsLead(d.w,
      if d.holders[listener].held.Some? && made.Some?
      then [Op.Accept(d.holders[listener].held.value, made.value.0, made.value.1)]
           + UserDataCall(Some(made.value.0), client)
      else [], Accepted(d, listener, client, made).w)
  {
    hide CallsLead;
    NoCalls(d.w);
    if d.holders[listener].held.Some? && made.Some? {
      var op := Op.Accept(d.holders[listener].held.value, made.value.0, made.value.1);
      var w := Apply(d.w, op);
      OneCall(d.w, op);
      UserDataIsCall(w, Some(made.value.0), client);
      CallsLeadOn(d.w, [op], w, UserDataCall(Some(made.value.0), client), WithUserData(w, Some(made.value.0), client));
    }
  }

  lemma AcceptIsCalls<P>(d: Desk<P>, listener: nat, client: nat, made: Option<(P, int)>)
    requires Routed(d) && Possible(d, Act.AcceptInto(listener, client, made))
    ensures var a := Act.AcceptInto(listener, client, made); CallsLead(d.w, Calls(d, a), Do(d, a).w)
  {
    hide CallsLead, AttachCalls, AttachTo, Accepted, UserDataCall;
    HeldIsLive(d, client);
    AttachIsCalls(d, client, None);
    AttachKeepsRouted(d, client, None);
    var d1 := AttachTo(d, client, None);
    AcceptedIsCalls(d1, listener, client, made);
    var calls := if listener != client && d.holders[listener].held.Some? && made.Some?
      then [Op.Accept(d.holders[listener].held.value, made.value.0, made.value.1)]
           + UserDataCall(Some(made.value.0), client)
      else [];
    CallsLeadOn(d.w, AttachCalls(d, client, None), d1.w, calls, Accepted(d1, listener, client, made).w);
  }

  lemma AssignIsCalls<P>(d: Desk<P>, to: nat, from: nat)
    requires Routed(d) && Possible(d, Act.Assign(to, from))
    ensures CallsLead(d.w, Calls(d, Act.Assign(to, from)), Do(d, Act.Assign(to, from)).w)
  {
    hide CallsLead, AttachCalls, AttachTo;
    var s := d.holders[from].held;
    HeldIsLive(d, from);
    AttachIsCalls(d, from, None);
    AttachKeepsRouted(d, from, None);
    var d1 := AttachTo(d, from, None);
    HeldIsLive(d1, to);
    AttachIsCalls(d1, to, s);
    CallsLeadOn(d.w, AttachCalls(d, from, None), d1.w, AttachCalls(d1, to, s), AttachTo(d1, to, s).w);
  }

  lemma DestructIsCalls<P>(d: Desk<P>, id: nat, success: bool)
    requires Routed(d) && Possible(d, Act.Destruct(id, success))
    ensures CallsLead(d.w, Calls(d, Act.Destruct(id, success)), Do(d, Act.Destruct(id, success)).w)
  {
    hide CallsLead, CloseCalls;
    NoCalls(d.w);
    if d.holders[id].held.Some? {
      var p := d.holders[id].held.value;
      var op := Op.AsyncPoll(p, None, 0, true, true);
      var d1 := d.(w := Apply(d.w, op));
      OneCall(d.w, op);
      CloseIsCalls(d1, id, p, success, true);
      CallsLeadOn(d.w, [op], d1.w, CloseCalls(p, success, true), Closed(d1, id, p, success, true).w);
    }
  }

  /** Whatever a program does with wrappers, the library sees a sequence of its own API calls and user-data writes. */
  lemma ActIsCalls<P>(d: Desk<P>, a: Act<P>)
    requires Routed(d) && Possible(d, a) && !a.Background?
    ensures CallsLead(d.w, Calls(d, a), Do(d, a).w)
  {
    hide CallsLead, AttachTo, AttachCalls, CloseCalls, Closed, Accepted, UserDataCall, Apply;
    NoCalls(d.w);
    match a
    case Construct(id) =>
    case SetHandlers(id, on) =>
    case CreateIn(id, made) => CreateIsCalls(d, id, made);
    case AcceptInto(listener, client, made) => AcceptIsCalls(d, listener, client, made);
    case Attach(id, p) => AttachIsCalls(d, id, Some(p));
    case Detach(id) => AttachIsCalls(d, id, None);
    case Assign(to, from) => AssignIsCalls(d, to, from);
    case Close(id, success, destroy) =>
      if d.holders[id].held.Some? {
        CloseIsCalls(d, id, d.holders[id].held.value, success, destroy);
      }
    case Destruct(id, success) => DestructIsCalls(d, id, success);
    case Raw(op) => OneCall(d.w, op);
  }

  // ----- In the middle of an act -----

  /** User data is only ever set to zero or to the wrapper that will hold the socket. */
  ghost predicate DataFor<P>(ops: seq<Op<P>>, after: Desk<P>) {
    forall op | op in ops ::
      && (op.SetUserData? ==> op.data == 0 || after.Holds(op.data, op.p))
      && (op.Create? ==> op.userData == 0 || after.Holds(op.userData, op.p))
  }

  /** Every socket's events go to nobody, to the wrapper that holds it in the first state, or to the one that holds it
      in the second. */
  ghost predicate RoutesBetween<P>(w: World<P>, before: Desk<P>, after: Desk<P>) {
    forall p | p in w.heap && w.heap[p].userData != 0 ::
      before.Holds(w.heap[p].userData, p) || after.Holds(w.heap[p].userData, p)
  }

  lemma OpRoutesBetween<P>(w: World<P>, op: Op<P>, before: Desk<P>, after: Desk<P>)
    requires RoutesBetween(w, before, after) && Callable(w, op) && DataFor([op], after)
    ensures RoutesBetween(Apply(w, op), before, after)
  {
    hide AfterClose, AfterShutdown, AfterConnect, AfterListen;
    assert op in [op];
    var w' := Apply(w, op);
    forall q | q in w'.heap && w'.heap[q].userData != 0
      ensures before.Holds(w'.heap[q].userData, q) || after.Holds(w'.heap[q].userData, q)
    {
      if q in w.heap && !op.SetUserData? && op != Op.Destroy(q) {
        OpKeepsLink(w, op, q);
      }
    }
  }

  lemma {:induction false} PrefixRoutesBetween<P>(w: World<P>, ops: seq<Op<P>>, before: Desk<P>, after: Desk<P>, k: nat)
    requires CallableAll(w, ops) && RoutesBetween(w, before, after) && DataFor(ops, after) && k <= |ops|
    ensures CallableAll(w, ops[..k]) && RoutesBetween(ApplyAll(w, ops[..k]), before, after)
    decreases k
  {
    hide RoutesBetween, Apply;
    if k > 0 {
      assert ops[..k][0] == ops[0] && ops[..k][1..] == ops[1..][..k - 1];
      OpRoutesBetween(w, ops[0], before, after);
      PrefixRoutesBetween(Apply(w, ops[0]), ops[1..], before, after, k - 1);
    }
  }

  lemma AcceptDataFor<P>(d: Desk<P>, listener: nat, client: nat, made: Option<(P, int)>)
    requires Routed(d) && Possible(d, Act.AcceptInto(listener, client, made))
    ensures var a := Act.AcceptInto(listener, client, made); DataFor(Calls(d, a), Do(d, a))
  {
    hide AttachTo, Apply;
    HeldIsLive(d, client);
    AttachKeepsRouted(d, client, None);
  }

  lemma AssignDataFor<P>(d: Desk<P>, to: nat, from: nat)
    requires Routed(d) && Possible(d, Act.Assign(to, from))
    ensures var a := Act.Assign(to, from); DataFor(Calls(d, a), Do(d, a))
  {
    hide AttachTo, Apply, Routed;
    HeldIsLive(d, from);
    AttachKeepsRouted(d, from, None);
    HeldIsLive(AttachTo(d, from, None), to);
  }

  lemma CallsDataFor<P>(d: Desk<P>, a: Act<P>)
    requires Routed(d) && Possible(d, a) && !a.Background?
    ensures DataFor(Calls(d, a), Do(d, a))
  {
    hide AttachTo, Apply, Accepted, Closed, Destructed, Assigned;
    match a
    case Construct(_) =>
    case SetHandlers(_, _) =>
    case CreateIn(_, _) =>
    case AcceptInto(listener, client, made) => AcceptDataFor(d, listener, client, made);
    case Attach(_, _) =>
    case Detach(_) =>
    case Assign(to, from) => AssignDataFor(d, to, from);
    case Close(_, _, _) =>
    case Destruct(_, _) =>
    case Raw(_) =>
  }

  /** The wrappers whose socket an act may change. */
  function Hands<P(==)>(a: Act<P>): set<nat> {
    match a
    case AcceptInto(_, client, _) => {client}
    case Assign(to, from) => {to, from}
    case CreateIn(_, _) => {a.id}
    case Attach(_, _) => {a.id}
    case Detach(_) => {a.id}
    case Close(_, _, _) => {a.id}
    case Destruct(_, _) => {a.id}
    case _ => {}
  }

  lemma OnlyHandsLetGo<P>(d: Desk<P>, a: Act<P>, id: nat, p: P)
    requires Routed(d) && Possible(d, a) && d.Holds(id, p) && !Do(d, a).Holds(id, p)
    ensures id in Hands(a)
  {
    hide AttachTo, Apply;
    match a
    case Construct(_) =>
    case SetHandlers(_, _) =>
    case CreateIn(_, _) =>
    case AcceptInto(_, _, _) =>
    case Attach(_, _) =>
    case Detach(_) =>
    case Assign(_, _) =>
    case Close(_, _, _) =>
    case Destruct(_, _) =>
    case Raw(_) =>
    case Background(_) =>
  }

  /** Between the calls and user-data writes of an act, a socket's events go to nobody, to the wrapper that will hold it
      when the act is done, or to the one that held it before and that the act makes give it up; never to a wrapper that
      is not there. */
  lemma {:induction false} NoRouteToTheDead<P>(d: Desk<P>, a: Act<P>, k: nat)
    requires Routed(d) && Possible(d, a) && !a.Background? && k <= |Calls(d, a)|
    ensures CallableAll(d.w, Calls(d, a)[..k])
    ensures var w, d' := ApplyAll(d.w, Calls(d, a)[..k]), Do(d, a);
      forall p | p in w.heap && w.heap[p].userData != 0 :: var id := w.heap[p].userData;
        id in d.holders && (d'.Holds(id, p) || (d.Holds(id, p) && id in Hands(a)))
  {
    hide Calls, Do, Possible, Hands;
    ActIsCalls(d, a);
    CallsDataFor(d, a);
    PrefixRoutesBetween(d.w, Calls(d, a), d, Do(d, a), k);
    var w, d' := ApplyAll(d.w, Calls(d, a)[..k]), Do(d, a);
    forall p | p in w.heap && w.heap[p].userData != 0
      ensures var id := w.heap[p].userData; id in d.holders && (d'.Holds(id, p) || (d.Holds(id, p) && id in Hands(a)))
    {
      var id := w.heap[p].userData;
      if d'.Holds(id, p) {
        HoldersWereThere(d, a, id, p);
      } else {
        OnlyHandsLetGo(d, a, id, p);
      }
    }
  }

  lemma HoldersWereThere<P>(d: Desk<P>, a: Act<P>, id: nat, p: P)
    requires Routed(d) && Possible(d, a) && Do(d, a).Holds(id, p)
    ensures id in d.holders
  {
    hide AttachTo;
  }

  // ----- Made from a callback -----

  function FromHandler<P(==)>(ops: seq<Op<P>>): seq<Label<P>> {
    if ops == [] then [] else [Handler(ops[0])] + FromHandler(ops[1..])
  }

  /** Calls made inside a callback are steps of the event-thread machine, and orderly ones while async I/O is up. */
  lemma {:induction false} CallsAreHandlerSteps<P>(s: State<P>, ops: seq<Op<P>>, w: World<P>)
    requires s.pc.InCallback? && s.pc.WellFormed() && s.w.init && CallsLead(s.w, ops, w)
    ensures Leads(s, FromHandler(ops), s.(w := w))
    ensures CallbackReturns !in FromHandler(ops)
    decreases |ops|
  {
    if ops != [] {
      var l: Label<P> := Handler(ops[0]);
      assert Apply(s.w, ops[0]).init;
      CallsAreHandlerSteps(Step(s, l), ops[1..], w);
      LeadsNowhere(s);
      LeadsNext(s, [], s, l);
      assert [] + [l] == [l];
      LeadsOn(s, [l], Step(s, l), FromHandler(ops[1..]), s.(w := w));
    }
  }

  // ----- Running the handlers -----

  /** The order in which _on_async_io looks at the events. */
  const ORDER: seq<Event> := [EvtRead, EvtWrite, EvtConnect, EvtConnFail, EvtAccept, EvtClose, EvtPriority, EvtError,
                              EvtInvalid, EvtOobRead, EvtOobWrite]

  /** What one of the program's handlers does when it is called: any acts, and its answer. An exception counts as a
      negative answer. */
  datatype Reply<P(==)> = Reply(acts: seq<Act<P>>, proceed: bool)

  /** How the handlers ended: one declined, all were gone through, or one destroyed the wrapper and asked to go on. */
  datatype Ending = Declined | Done | Gone

  datatype Outcome<P(==)> = Outcome(d: Desk<P>, ran: seq<Event>, ending: Ending)

  /** The acts of a handler, and among them the calls that other threads make meanwhile; acts that are not possible are
      not made. The event thread itself does nothing else while it is in a callback. */
  ghost function Perform<P>(d: Desk<P>, acts: seq<Act<P>>): (d': Desk<P>)
    requires Routed(d)
    ensures Routed(d')
    decreases |acts|
  {
    if acts == [] then d
    else if Possible(d, acts[0]) && !acts[0].Background? then
      DoKeepsRouted(d, acts[0]); Perform(Do(d, acts[0]), acts[1..])
    else Perform(d, acts[1..])
  }

  /** Calls the wrapper's handler for an event. `code` says what the program's handlers do, `closes` whether closing a
      descriptor succeeds. */
  ghost function RunHandler<P>(code: (nat, Desk<P>) -> Reply<P>, closes: bool, d: Desk<P>, id: nat, e: Event)
    : (r: (Desk<P>, bool))
    requires Routed(d) && id in d.holders && e in d.holders[id].on
    ensures Routed(r.0)
  {
    match d.holders[id].on[e]
    case CloseSocket =>
      DoKeepsRouted(d, Act.Close(id, closes, true));
      (Do(d, Act.Close(id, closes, true)), false)
    case Custom(k) => (Perform(d, code(k, d).acts), code(k, d).proceed)
  }

  /** _on_async_io, from some event on. The handlers are looked up in the wrapper as it is when their turn comes. */
  ghost function Handle<P>(code: (nat, Desk<P>) -> Reply<P>, closes: bool, d: Desk<P>, id: nat, events: set<Event>,
                           order: seq<Event>): Outcome<P>
    requires Routed(d) && id in d.holders
    decreases |order|
  {
    if order == [] then Outcome(d, [], Done)
    else if order[0] !in events || order[0] !in d.holders[id].on then Handle(code, closes, d, id, events, order[1..])
    else
      var (d', proceed) := RunHandler(code, closes, d, id, order[0]);
      if !proceed then Outcome(d', [order[0]], Declined)
      else if id !in d'.holders then Outcome(d', [order[0]], Gone)
      else
        var rest := Handle(code, closes, d', id, events, order[1..]);
        rest.(ran := [order[0]] + rest.ran)
  }

  /** _on_async_io: events of a socket without user data are dropped. */
  ghost function OnAsyncIo<P>(code: (nat, Desk<P>) -> Reply<P>, closes: bool, d: Desk<P>, p: P, events: set<Event>)
    : Outcome<P>
    requires Routed(d) && p in d.w.heap
  {
    if d.Route(p) == None then Outcome(d, [], Done) else Handle(code, closes, d, d.Route(p).value, events, ORDER)
  }

  /** Stopping between two events and going on from there is the same as going through. */
  lemma {:induction false} HandleInParts<P>(code: (nat, Desk<P>) -> Reply<P>, closes: bool, d: Desk<P>, id: nat,
                                           events: set<Event>, a: seq<Event>, b: seq<Event>)
    requires Routed(d) && id in d.holders
    ensures var first, whole := Handle(code, closes, d, id, events, a), Handle(code, closes, d, id, events, a + b);
      if first.ending != Done then whole == first
      else
        && Routed(first.d) && id in first.d.holders
        && var rest := Handle(code, closes, first.d, id, events, b);
           whole == rest.(ran := first.ran + rest.ran)
    decreases |a|
  {
    hide RunHandler, Routed, Perform, Do;
    if a == [] {
      assert a + b == b;
      var rest := Handle(code, closes, d, id, events, b);
      assert [] + rest.ran == rest.ran;
    } else {
      assert (a + b)[0] == a[0] && (a + b)[1..] == a[1..] + b;
      if a[0] !in events || a[0] !in d.holders[id].on {
        HandleInParts(code, closes, d, id, events, a[1..], b);
      } else {
        var (d', proceed) := RunHandler(code, closes, d, id, a[0]);
        if proceed && id in d'.holders {
          HandleInParts(code, closes, d', id, events, a[1..], b);
        }
      }
    }
  }

  // ----- What the handlers do is a run -----

  lemma {:induction false} PerformIsCalls<P>(d: Desk<P>, acts: seq<Act<P>>) returns (ops: seq<Op<P>>)
    requires Routed(d)
    ensures CallsLead(d.w, ops, Perform(d, acts).w)
    decreases |acts|
  {
    hide CallsLead, Routed, Possible, Do, Calls;
    NoCalls(d.w);
    ops := [];
    if acts != [] {
      if Possible(d, acts[0]) && !acts[0].Background? {
        DoKeepsRouted(d, acts[0]);
        ActIsCalls(d, acts[0]);
        var more := PerformIsCalls(Do(d, acts[0]), acts[1..]);
        CallsLeadOn(d.w, Calls(d, acts[0]), Do(d, acts[0]).w, more, Perform(d, acts).w);
        ops := Calls(d, acts[0]) + more;
      } else {
        ops := PerformIsCalls(d, acts[1..]);
      }
    }
  }

  lemma RunHandlerIsCalls<P>(code: (nat, Desk<P>) -> Reply<P>, closes: bool, d: Desk<P>, id: nat, e: Event)
    returns (ops: seq<Op<P>>)
    requires Routed(d) && id in d.holders && e in d.holders[id].on
    ensures CallsLead(d.w, ops, RunHandler(code, closes, d, id, e).0.w)
  {
    hide CallsLead, Routed, Perform, Do, Calls;
    match d.holders[id].on[e]
    case CloseSocket =>
      ActIsCalls(d, Act.Close(id, closes, true));
      ops := Calls(d, Act.Close(id, closes, true));
    case Custom(k) => ops := PerformIsCalls(d, code(k, d).acts);
  }

  /** Whatever the handlers do, the library sees a sequence of API calls and user-data writes. */
  lemma {:induction false} HandleIsCalls<P>(code: (nat, Desk<P>) -> Reply<P>, closes: bool, d: Desk<P>, id: nat,
                                            events: set<Event>, order: seq<Event>)
    returns (ops: seq<Op<P>>)
    requires Routed(d) && id in d.holders
    ensures CallsLead(d.w, ops, Handle(code, closes, d, id, events, order).d.w)
    decreases |order|
  {
    hide CallsLead, Routed, RunHandler;
    NoCalls(d.w);
    ops := [];
    if order != [] {
      if order[0] !in events || order[0] !in d.holders[id].on {
        ops := HandleIsCalls(code, closes, d, id, events, order[1..]);
      } else {
        var (d', proceed) := RunHandler(code, closes, d, id, order[0]);
        ops := RunHandlerIsCalls(code, closes, d, id, order[0]);
        if proceed && id in d'.holders {
          var more := HandleIsCalls(code, closes, d', id, events, order[1..]);
          CallsLeadOn(d.w, ops, d'.w, more, Handle(code, closes, d, id, events, order).d.w);
          ops := ops + more;
        }
      }
    }
  }

  /** Each handler runs at most once, only for an event that was delivered, and in the fixed order. */
  lemma {:induction false} HandlersRunInOrder<P>(code: (nat, Desk<P>) -> Reply<P>, closes: bool, d: Desk<P>, id: nat,
                                                events: set<Event>, order: seq<Event>)
    returns (at: seq<nat>)
    requires Routed(d) && id in d.holders
    ensures var ran := Handle(code, closes, d, id, events, order).ran;
      && |at| == |ran|
      && (forall i | 0 <= i < |ran| :: at[i] < |order| && ran[i] == order[at[i]] && ran[i] in events)
      && (forall i, j | 0 <= i < j < |ran| :: at[i] < at[j])
    decreases |order|
  {
    hide RunHandler, Routed, Perform, Do;
    at := [];
    if order != [] {
      if order[0] !in events || order[0] !in d.holders[id].on {
        var rest := HandlersRunInOrder(code, closes, d, id, events, order[1..]);
        at := seq(|rest|, i requires 0 <= i < |rest| => rest[i] + 1);
      } else {
        var (d', proceed) := RunHandler(code, closes, d, id, order[0]);
        at := [0];
        if proceed && id in d'.holders {
          var rest := HandlersRunInOrder(code, closes, d', id, events, order[1..]);
          at := [0] + seq(|rest|, i requires 0 <= i < |rest| => rest[i] + 1);
        }
      }
    }
  }

  // ----- Which handlers run, and in which order -----

  function Rank(e: Event): nat {
    match e
    case EvtRead => 0
    case EvtWrite => 1
    case EvtConnect => 2
    case EvtConnFail => 3
    case EvtAccept => 4
    case EvtClose => 5
    case EvtPriority => 6
    case EvtError => 7
    case EvtInvalid => 8
    case EvtOobRead => 9
    case EvtOobWrite => 10
  }

  /** The order is that of the events' bits. */
  lemma RankIsBitOrder(e: Event, x: Event)
    ensures Rank(e) < Rank(x) <==> Bit(e) < Bit(x)
  {
  }

  /** All events, in order. */
  ghost predicate Ascending(order: seq<Event>) {
    (forall e: Event :: e in order) && forall i, j | 0 <= i < j < |order| :: Rank(order[i]) < Rank(order[j])
  }

  lemma RankAt(i: nat)
    requires i < |ORDER|
    ensures Rank(ORDER[i]) == i
  {
    assert ORDER[0] == EvtRead && ORDER[1] == EvtWrite && ORDER[2] == EvtConnect && ORDER[3] == EvtConnFail;
    assert ORDER[4] == EvtAccept && ORDER[5] == EvtClose && ORDER[6] == EvtPriority && ORDER[7] == EvtError;
    assert ORDER[8] == EvtInvalid && ORDER[9] == EvtOobRead && ORDER[10] == EvtOobWrite;
  }

  lemma OrderAscends()
    ensures Ascending(ORDER)
  {
    hide Rank;
    forall e: Event ensures e in ORDER {
      match e
      case EvtRead => assert ORDER[0] == e;
      case EvtWrite => assert ORDER[1] == e;
      case EvtConnect => assert ORDER[2] == e;
      case EvtConnFail => assert ORDER[3] == e;
      case EvtAccept => assert ORDER[4] == e;
      case EvtClose => assert ORDER[5] == e;
      case EvtPriority => assert ORDER[6] == e;
      case EvtError => assert ORDER[7] == e;
      case EvtInvalid => assert ORDER[8] == e;
      case EvtOobRead => assert ORDER[9] == e;
      case EvtOobWrite => assert ORDER[10] == e;
    }
    forall i, j | 0 <= i < j < |ORDER| ensures Rank(ORDER[i]) < Rank(ORDER[j]) {
      RankAt(i);
      RankAt(j);
    }
  }

  /** The wrapper has a handler for the event. */
  predicate Handles<P>(d: Desk<P>, id: nat, e: Event) {
    id in d.holders && e in d.holders[id].on
  }

  /** The first of the delivered events that the wrapper handles. */
  ghost predicate First<P>(d: Desk<P>, id: nat, events: set<Event>, e: Event) {
    && e in events && Handles(d, id, e)
    && forall x | x in events && Handles(d, id, x) :: Rank(e) <= Rank(x)
  }

  /** Events later in the order than `e`. */
  ghost function Later(events: set<Event>, e: Event): set<Event> {
    set x | x in events && Rank(x) > Rank(e)
  }

  /** Events without a handler, and events that were not delivered, are passed over. */
  lemma {:induction false} NothingToRun<P>(code: (nat, Desk<P>) -> Reply<P>, closes: bool, d: Desk<P>, id: nat,
                                           events: set<Event>, order: seq<Event>)
    requires Routed(d) && id in d.holders
    requires forall x | x in order :: x !in events || !Handles(d, id, x)
    ensures Handle(code, closes, d, id, events, order) == Outcome(d, [], Done)
    decreases |order|
  {
    hide RunHandler, Routed;
    if order != [] {
      assert order[0] in order;
      NothingToRun(code, closes, d, id, events, order[1..]);
    }
  }

  /** Only the events that are in the order matter. */
  lemma {:induction false} SameEvents<P>(code: (nat, Desk<P>) -> Reply<P>, closes: bool, d: Desk<P>, id: nat,
                                         events: set<Event>, others: set<Event>, order: seq<Event>)
    requires Routed(d) && id in d.holders && forall x | x in order :: x in events <==> x in others
    ensures Handle(code, closes, d, id, events, order) == Handle(code, closes, d, id, others, order)
    decreases |order|
  {
    hide RunHandler, Routed;
    if order != [] {
      assert order[0] in order;
      if order[0] !in events || order[0] !in d.holders[id].on {
        SameEvents(code, closes, d, id, events, others, order[1..]);
      } else {
        var (d', proceed) := RunHandler(code, closes, d, id, order[0]);
        if proceed && id in d'.holders {
          SameEvents(code, closes, d', id, events, others, order[1..]);
        }
      }
    }
  }

  lemma SplitAt(order: seq<Event>, e: Event) returns (a: seq<Event>, b: seq<Event>)
    requires Ascending(order)
    ensures order == a + [e] + b
    ensures (forall x | x in a :: Rank(x) < Rank(e)) && (forall x | x in b :: Rank(x) > Rank(e))
  {
    hide Rank;
    assert e in order;
    var k :| 0 <= k < |order| && order[k] == e;
    a, b := order[..k], order[k + 1..];
  }

  /** The first handler, and then the later events from the state it left. */
  lemma FirstOf<P>(code: (nat, Desk<P>) -> Reply<P>, closes: bool, d: Desk<P>, id: nat, events: set<Event>, e: Event,
                   order: seq<Event>)
    requires Ascending(order) && Routed(d) && First(d, id, events, e)
    ensures var o, (d', proceed) := Handle(code, closes, d, id, events, order), RunHandler(code, closes, d, id, e);
      if !proceed then o == Outcome(d', [e], Declined)
      else if id !in d'.holders then o == Outcome(d', [e], Gone)
      else
        var rest := Handle(code, closes, d', id, Later(events, e), order);
        o == Outcome(rest.d, [e] + rest.ran, rest.ending)
  {
    hide RunHandler, Routed, Rank, Ascending;
    var a, b := SplitAt(order, e);
    assert order == a + ([e] + b) && ([e] + b)[0] == e && ([e] + b)[1..] == b;
    NothingToRun(code, closes, d, id, events, a);
    SkipOn(code, closes, d, id, events, a, [e] + b);
    var (d', proceed) := RunHandler(code, closes, d, id, e);
    if proceed && id in d'.holders {
      LaterOnly(code, closes, d', id, events, e, a, b);
    }
  }

  lemma SkipOn<P>(code: (nat, Desk<P>) -> Reply<P>, closes: bool, d: Desk<P>, id: nat, events: set<Event>,
                  a: seq<Event>, b: seq<Event>)
    requires Routed(d) && id in d.holders && Handle(code, closes, d, id, events, a) == Outcome(d, [], Done)
    ensures Handle(code, closes, d, id, events, a + b) == Handle(code, closes, d, id, events, b)
  {
    hide Routed, Handle;
    HandleInParts(code, closes, d, id, events, a, b);
    var rest := Handle(code, closes, d, id, events, b);
    assert [] + rest.ran == rest.ran;
  }

  lemma LaterOnly<P>(code: (nat, Desk<P>) -> Reply<P>, closes: bool, d: Desk<P>, id: nat, events: set<Event>, e: Event,
                     a: seq<Event>, b: seq<Event>)
    requires Routed(d) && id in d.holders
    requires (forall x | x in a :: Rank(x) < Rank(e)) && (forall x | x in b :: Rank(x) > Rank(e))
    ensures Handle(code, closes, d, id, Later(events, e), a + [e] + b) == Handle(code, closes, d, id, events, b)
  {
    hide Routed, Rank, Handle, Handles;
    var later := Later(events, e);
    forall x | x in a + [e] ensures x !in later {
      assert x in a || x == e;
    }
    NothingToRun(code, closes, d, id, later, a + [e]);
    SkipOn(code, closes, d, id, later, a + [e], b);
    SameEvents(code, closes, d, id, events, later, b);
  }

  /** A wrapper that handles none of the delivered events is left alone, and so is everything else. */
  lemma UnhandledIsIgnored<P>(code: (nat, Desk<P>) -> Reply<P>, closes: bool, d: Desk<P>, p: P, id: nat,
                              events: set<Event>)
    requires Routed(d) && p in d.w.heap && d.Route(p) == Some(id) && id in d.holders
    requires forall e | e in events :: !Handles(d, id, e)
    ensures OnAsyncIo(code, closes, d, p, events) == Outcome(d, [], Done)
  {
    hide Handle, Routed;
    NothingToRun(code, closes, d, id, events, ORDER);
  }

  /** Otherwise the handler of the first such event runs first; if it declines, or destroys the wrapper, that is
      all; and if not, the later events are handled in the same way from the state it left. */
  lemma FirstHandlerRuns<P>(code: (nat, Desk<P>) -> Reply<P>, closes: bool, d: Desk<P>, p: P, id: nat,
                            events: set<Event>, e: Event)
    requires Routed(d) && p in d.w.heap && d.Route(p) == Some(id) && First(d, id, events, e)
    ensures var o, (d', proceed) := OnAsyncIo(code, closes, d, p, events), RunHandler(code, closes, d, id, e);
      if !proceed then o == Outcome(d', [e], Declined)
      else if id !in d'.holders then o == Outcome(d', [e], Gone)
      else
        var rest := Handle(code, closes, d', id, Later(events, e), ORDER);
        o == Outcome(rest.d, [e] + rest.ran, rest.ending)
  {
    hide RunHandler, Routed, First, Handle, Ascending;
    OrderAscends();
    FirstOf(code, closes, d, id, events, e, ORDER);
  }

  lemma OneOf<P>(code: (nat, Desk<P>) -> Reply<P>, closes: bool, d: Desk<P>, id: nat, e: Event, order: seq<Event>)
    requires Ascending(order) && Routed(d) && Handles(d, id, e)
    ensures var o, (d', proceed) := Handle(code, closes, d, id, {e}, order), RunHandler(code, closes, d, id, e);
      o == Outcome(d', [e], if !proceed then Declined else if id in d'.holders then Done else Gone)
  {
    hide RunHandler, Routed, Rank, Ascending;
    FirstOf(code, closes, d, id, {e}, e, order);
    var (d', proceed) := RunHandler(code, closes, d, id, e);
    if proceed && id in d'.holders {
      NothingToRun(code, closes, d', id, Later({e}, e), order);
    }
  }

  /** What a handler does, it does act by act. */
  lemma {:induction false} PerformInTurn<P>(d: Desk<P>, a: seq<Act<P>>, b: seq<Act<P>>)
    requires Routed(d)
    ensures Perform(d, a + b) == Perform(Perform(d, a), b)
    decreases |a|
  {
    hide Routed, Possible, Do;
    if a == [] {
      assert a + b == b;
    } else {
      assert (a + b)[0] == a[0] && (a + b)[1..] == a[1..] + b;
      if Possible(d, a[0]) && !a[0].Background? {
        DoKeepsRouted(d, a[0]);
        PerformInTurn(Do(d, a[0]), a[1..], b);
      } else {
        PerformInTurn(d, a[1..], b);
      }
    }
  }

  /** One delivered event with a handler that makes one step: the handler runs, that step is all that happens, and its
      answer says how the handling ends. */
  lemma OneEvent<P>(code: (nat, Desk<P>) -> Reply<P>, closes: bool, d: Desk<P>, p: P, id: nat, e: Event, k: nat,
                    a: Act<P>)
    requires Routed(d) && p in d.w.heap && d.Route(p) == Some(id) && Handles(d, id, e)
    requires d.holders[id].on[e] == Custom(k) && code(k, d).acts == [a] && Possible(d, a) && !a.Background?
    ensures OnAsyncIo(code, closes, d, p, {e}) ==
      Outcome(Do(d, a), [e],
              if !code(k, d).proceed then Declined else if id in Do(d, a).holders then Done else Gone)
  {
    hide Do, Possible, Handle, Ascending, Routed;
    OrderAscends();
    OneOf(code, closes, d, id, e, ORDER);
    DoKeepsRouted(d, a);
    assert [a][1..] == [] && Perform(Do(d, a), []) == Do(d, a);
  }

  lemma TwoOf<P>(code: (nat, Desk<P>) -> Reply<P>, closes: bool, d: Desk<P>, id: nat, e: Event, x: Event,
                 order: seq<Event>)
    requires Ascending(order) && Routed(d) && Handles(d, id, e) && Handles(d, id, x) && Rank(e) < Rank(x)
    ensures var o, (d', proceed) := Handle(code, closes, d, id, {x, e}, order), RunHandler(code, closes, d, id, e);
      o.ran == if proceed && Handles(d', id, x) then [e, x] else [e]
  {
    hide RunHandler, Routed, Rank, Handle, Ascending;
    FirstOf(code, closes, d, id, {x, e}, e, order);
    var (d', proceed) := RunHandler(code, closes, d, id, e);
    assert Later({x, e}, e) == {x};
    if proceed && Handles(d', id, x) {
      OneOf(code, closes, d', id, x, order);
    } else if proceed && id in d'.holders {
      NothingToRun(code, closes, d', id, {x}, order);
    }
  }

  /** Two delivered events with handlers of the program's own: the one with the lower bit is handled first, and then, if
      its handler agrees and there is still one for it, the other; nothing else. */
  lemma TwoEvents<P>(code: (nat, Desk<P>) -> Reply<P>, closes: bool, d: Desk<P>, p: P, id: nat, e: Event, x: Event,
                     k: nat)
    requires Routed(d) && p in d.w.heap && d.Route(p) == Some(id) && Handles(d, id, e) && Handles(d, id, x)
    requires Bit(e) < Bit(x) && d.holders[id].on[e] == Custom(k)
    ensures OnAsyncIo(code, closes, d, p, {x, e}).ran
         == if code(k, d).proceed && Handles(Perform(d, code(k, d).acts), id, x) then [e, x] else [e]
  {
    hide Perform, Routed, Rank, Handle, Ascending;
    OrderAscends();
    RankIsBitOrder(e, x);
    TwoOf(code, closes, d, id, e, x, ORDER);
  }

  lemma DefaultFirst<P>(d: Desk<P>, id: nat, events: set<Event>)
    requires id in d.holders && d.holders[id].on == map[EvtClose := CloseSocket, EvtError := CloseSocket]
    requires EvtClose in events || EvtError in events
    ensures First(d, id, events, if EvtClose in events then EvtClose else EvtError)
  {
  }

  lemma DefaultRuns<P>(code: (nat, Desk<P>) -> Reply<P>, closes: bool, d: Desk<P>, p: P, id: nat, e: Event)
    requires Routed(d) && d.Holds(id, p) && e in {EvtClose, EvtError}
    requires d.holders[id].on == map[EvtClose := CloseSocket, EvtError := CloseSocket]
    ensures RunHandler(code, closes, d, id, e) == (Closed(d, id, p, closes, true), false)
  {
    hide Closed, Routed;
  }

  /** A wrapper with the handlers it was made with: CLOSE and ERROR each close and free the socket and empty the
      wrapper, CLOSE first if both are delivered; all other events do nothing. */
  lemma DefaultHandlers<P>(code: (nat, Desk<P>) -> Reply<P>, closes: bool, d: Desk<P>, p: P, id: nat,
                           events: set<Event>)
    requires Routed(d) && d.Holds(id, p) && p in d.w.heap && d.Route(p) == Some(id)
    requires d.holders[id].on == map[EvtClose := CloseSocket, EvtError := CloseSocket]
    ensures var o := OnAsyncIo(code, closes, d, p, events);
      if EvtClose in events || EvtError in events then
        && o.ran == [if EvtClose in events then EvtClose else EvtError] && o.ending == Declined
        && p !in o.d.w.heap && o.d.holders == d.Hold(id, None).holders
      else o == Outcome(d, [], Done)
  {
    hide Handle, RunHandler, First, Routed, Closed, OnAsyncIo;
    if EvtClose in events || EvtError in events {
      var e := if EvtClose in events then EvtClose else EvtError;
      DefaultFirst(d, id, events);
      FirstHandlerRuns(code, closes, d, p, id, events, e);
      DefaultRuns(code, closes, d, p, id, e);
      ClosedIsFreed(d, id, p, closes);
    } else {
      UnhandledIsIgnored(code, closes, d, p, id, events);
    }
  }

  /** The handlers that come before on_close have all been gone through, left the wrapper holding the socket, and left
      the default on_close in place. */
  ghost predicate LeftToDefaultClose<P>(before: Outcome<P>, id: nat, p: P) {
    && before.ending == Done && before.d.Holds(id, p)
    && EvtClose in before.d.holders[id].on && before.d.holders[id].on[EvtClose] == CloseSocket
  }

  ghost function BeforeClose<P>(code: (nat, Desk<P>) -> Reply<P>, closes: bool, d: Desk<P>, id: nat, events: set<Event>)
    : Outcome<P>
    requires Routed(d) && id in d.holders
  {
    Handle(code, closes, d, id, events, ORDER[..5])
  }

  lemma DefaultCloseDeclines<P>(code: (nat, Desk<P>) -> Reply<P>, closes: bool, d: Desk<P>, id: nat, p: P,
                                events: set<Event>, order: seq<Event>)
    requires Routed(d) && d.Holds(id, p) && EvtClose in events && order != [] && order[0] == EvtClose
    requires EvtClose in d.holders[id].on && d.holders[id].on[EvtClose] == CloseSocket
    ensures Handle(code, closes, d, id, events, order) == Outcome(Closed(d, id, p, closes, true), [EvtClose], Declined)
  {
    hide Closed;
  }

  lemma ClosedIsFreed<P>(d: Desk<P>, id: nat, p: P, success: bool)
    requires Routed(d) && d.Holds(id, p)
    ensures var d' := Closed(d, id, p, success, true); p !in d'.w.heap && d'.holders == d.Hold(id, None).holders
    ensures p in d.w.heap && d.w.heap[p].sd != -1
  {
  }

  /** The default on_close then closes and frees the socket, empties the wrapper, and is the last handler to run. */
  lemma DefaultClose<P>(code: (nat, Desk<P>) -> Reply<P>, closes: bool, d: Desk<P>, id: nat, p: P, events: set<Event>)
    requires Routed(d) && id in d.holders && EvtClose in events
    requires LeftToDefaultClose(BeforeClose(code, closes, d, id, events), id, p)
    ensures var before, whole := BeforeClose(code, closes, d, id, events), Handle(code, closes, d, id, events, ORDER);
      && whole.ending == Declined && whole.ran == before.ran + [EvtClose]
      && p in before.d.w.heap && p !in whole.d.w.heap
      && CallsLead(before.d.w, CloseCalls(p, closes, true), whole.d.w)
      && whole.d.holders == before.d.Hold(id, None).holders
  {
    hide CallsLead, Apply, Handle, Closed, Routed, CloseCalls;
    var before := BeforeClose(code, closes, d, id, events);
    assert ORDER[..5] + ORDER[5..] == ORDER && ORDER[5] == EvtClose;
    HandleInParts(code, closes, d, id, events, ORDER[..5], ORDER[5..]);
    DefaultCloseDeclines(code, closes, before.d, id, p, events, ORDER[5..]);
    ClosedIsFreed(before.d, id, p, closes);
    CloseIsCalls(before.d, id, p, closes, true);
  }

  /** What other threads may do while the event thread holds the mutex: calls that do not need it, and stores to the two
      flags by an init or a cleanup. */
  ghost predicate MeanwhileFrom<P>(s: State<P>, ls: seq<Label<P>>) {
    Valid(s, ls) && forall l | l in ls :: (l.User? && !Locks(l.op)) || l.StoreInit? || l.StoreDie?
  }

  /** From here a callback closes the socket's descriptor, frees the socket and returns, while other threads do anything
      before, between and after these (`a`, `b` and `c`). Each of the three can happen when its turn has come; the
      second one frees the socket. After the third, the descriptor is still in the list exactly when it was before, a
      cleanup has lowered the flag ahead of the free, and it is not the one that the thread drops by itself. */
  ghost predicate ClosesForGood<P>(s: State<P>, p: P, closes: bool,
                                   a: seq<Label<P>>, b: seq<Label<P>>, c: seq<Label<P>>)
    requires s.pc.InCallback? && s.pc.WellFormed()
  {
    var close: Label<P>, free: Label<P> := Handler(Op.CloseDescriptor(p, closes)), Handler(Op.Destroy(p));
    p in s.w.heap && (MeanwhileFrom(s, a) ==>
      var s1 := Run(s, a);
      Enabled(s1, close) && (MeanwhileFrom(Step(s1, close), b) ==>
        var s2 := Run(Step(s1, close), b);
        Enabled(s2, free) && p in s2.w.heap && p !in Step(s2, free).w.heap && (MeanwhileFrom(Step(s2, free), c) ==>
          var s3, sd := Run(Step(s2, free), c), s.w.heap[p].sd;
          Enabled(s3, CallbackReturns) &&
          (Has(Step(s3, CallbackReturns).w.reg, sd)
           <==> Has(s.w.reg, sd) && !s2.w.init && !(s.pc.drop && s.pc.fds[s.pc.turn].fd == sd)))))
  }

  /** Where a callback stands with a socket: this registry, and the socket still live under this descriptor if it has
      not been freed. */
  ghost predicate At<P>(s: State<P>, pc: Pc, reg: seq<Entry<P>>, live: bool, p: P, sd: int) {
    s.pc == pc && s.w.reg == reg && (live ==> p in s.w.heap && s.w.heap[p].sd == sd)
  }

  lemma MeanwhileStep<P>(s: State<P>, l: Label<P>, live: bool, p: P, sd: int)
    requires MeanwhileFrom(s, [l]) && At(s, s.pc, s.w.reg, live, p, sd)
    ensures At(Step(s, l), s.pc, s.w.reg, live, p, sd)
  {
    hide AfterClose, AfterShutdown, AfterConnect, AfterListen;
    assert l in [l];
    if live && l.User? && !l.op.SetUserData? {
      OpKeepsLink(s.w, l.op, p);
    }
  }

  /** What other threads do meanwhile leaves the callback, the registry and the socket's descriptor alone. */
  lemma {:induction false} Meanwhile<P>(s: State<P>, ls: seq<Label<P>>, live: bool, p: P, sd: int)
    requires MeanwhileFrom(s, ls) && At(s, s.pc, s.w.reg, live, p, sd)
    ensures At(Run(s, ls), s.pc, s.w.reg, live, p, sd)
    decreases |ls|
  {
    hide At, Step;
    if ls != [] {
      assert Valid(Step(s, ls[0]), [ls[0]][1..]);
      MeanwhileStep(s, ls[0], live, p, sd);
      AtIs(Step(s, ls[0]), s.pc, s.w.reg, live, p, sd);
      Meanwhile(Step(s, ls[0]), ls[1..], live, p, sd);
    }
  }

  lemma AtIs<P>(s: State<P>, pc: Pc, reg: seq<Entry<P>>, live: bool, p: P, sd: int)
    requires At(s, pc, reg, live, p, sd)
    ensures s.pc == pc && s.w.reg == reg && (live ==> p in s.w.heap && s.w.heap[p].sd == sd)
  {
  }

  lemma DroppedHas<P>(w: World<P>, fd: int, drop: bool, key: int)
    requires DistinctKeys(w.reg)
    ensures Has(Dropped(w, fd, drop).reg, key) <==> Has(w.reg, key) && !(drop && fd == key)
  {
    RemoveHas(w.reg, fd, key);
  }

  lemma CloseStep<P>(s: State<P>, p: P, closes: bool)
    requires s.pc.InCallback? && s.pc.WellFormed() && p in s.w.heap
    ensures var close: Label<P> := Handler(Op.CloseDescriptor(p, closes));
      Enabled(s, close) && At(Step(s, close), s.pc, s.w.reg, true, p, s.w.heap[p].sd)
  {
  }

  lemma FreeStep<P>(s: State<P>, p: P)
    requires s.pc.InCallback? && s.pc.WellFormed() && p in s.w.heap
    ensures var free: Label<P> := Handler(Op.Destroy(p));
      && Enabled(s, free) && p !in Step(s, free).w.heap && Step(s, free).pc == s.pc
      && Step(s, free).w.reg == if s.w.init then Remove(s.w.reg, s.w.heap[p].sd) else s.w.reg
  {
  }

  lemma ReturnStep<P>(s: State<P>)
    requires s.pc.InCallback? && s.pc.WellFormed()
    ensures Enabled(s, CallbackReturns)
    ensures Step(s, CallbackReturns).w == Dropped(s.w, s.pc.fds[s.pc.turn].fd, s.pc.drop)
  {
  }

  lemma CallbackCloses<P>(s: State<P>, p: P, closes: bool, a: seq<Label<P>>, b: seq<Label<P>>, c: seq<Label<P>>)
    requires s.pc.InCallback? && s.pc.WellFormed() && DistinctKeys(s.w.reg) && p in s.w.heap
    ensures ClosesForGood(s, p, closes, a, b, c)
  {
    hide DistinctKeys, Has, Remove, Dropped, Valid, Run, Step, Enabled;
    var close: Label<P>, free: Label<P> := Handler(Op.CloseDescriptor(p, closes)), Handler(Op.Destroy(p));
    var sd, fd := s.w.heap[p].sd, s.pc.fds[s.pc.turn].fd;
    if MeanwhileFrom(s, a) {
      Meanwhile(s, a, true, p, sd);
      var s1 := Run(s, a);
      CloseStep(s1, p, closes);
      if MeanwhileFrom(Step(s1, close), b) {
        Meanwhile(Step(s1, close), b, true, p, sd);
        var s2 := Run(Step(s1, close), b);
        FreeStep(s2, p);
        if MeanwhileFrom(Step(s2, free), c) {
          Meanwhile(Step(s2, free), c, false, p, sd);
          ReturnStep(Run(Step(s2, free), c));
          RemoveHas(s.w.reg, sd, sd);
          DroppedHas(Run(Step(s2, free), c).w, fd, s.pc.drop, sd);
        }
      }
    }
  }

  lemma SafeHasDistinctKeys<P>(w: World<P>)
    requires Safe(w)
    ensures DistinctKeys(w.reg)
  {
  }

  lemma {:induction false} CallsKeepInit<P>(w: World<P>, ops: seq<Op<P>>, end: World<P>)
    requires CallsLead(w, ops, end)
    ensures end.init == w.init
    decreases |ops|
  {
    if ops != [] {
      assert Apply(w, ops[0]).init == w.init;
      CallsKeepInit(Apply(w, ops[0]), ops[1..], end);
    }
  }

  /** What the handlers before on_close do is a run of the callback. */
  lemma EarlierIsRun<P>(s: State<P>, code: (nat, Desk<P>) -> Reply<P>, closes: bool, d: Desk<P>, id: nat,
                        out: set<Event>)
    returns (earlier: seq<Op<P>>)
    requires s.pc.InCallback? && s.pc.WellFormed() && s.w.init && Clean(s) && d.w == s.w
    requires Routed(d) && id in d.holders
    ensures var mid := s.(w := BeforeClose(code, closes, d, id, out).d.w);
      && Leads(s, FromHandler(earlier), mid) && CallbackReturns !in FromHandler(earlier)
      && Clean(mid) && mid.w.init
  {
    hide CallsLead, Leads, Handle, Routed, Clean;
    earlier := HandleIsCalls(code, closes, d, id, out, ORDER[..5]);
    var before := BeforeClose(code, closes, d, id, out);
    CallsAreHandlerSteps(s, earlier, before.d.w);
    LeadsClean(s, FromHandler(earlier), s.(w := before.d.w));
    CallsKeepInit(d.w, earlier, before.d.w);
  }

  /** End to end: the event thread delivers events with CLOSE to a socket held by a wrapper with the default on_close,
      whose earlier handlers leave it open. Then what those handlers do is a run of the callback; on_close is the last
      handler to run and empties the wrapper; its calls are one close of the descriptor and one free of the socket; and
      whatever other threads do meanwhile, the socket is then gone, and once the callback has returned its descriptor is
      unregistered, unless a cleanup lowered the flag ahead of the free and the thread does not drop the descriptor. */
  lemma DefaultCloseEndToEnd<P>(s: State<P>, l: Label<P>, code: (nat, Desk<P>) -> Reply<P>, closes: bool, d: Desk<P>,
                                id: nat, p: P, out: set<Event>, a: seq<Label<P>>, b: seq<Label<P>>, c: seq<Label<P>>)
    returns (earlier: seq<Op<P>>)
    requires Clean(s) && Enabled(s, l) && l.Serve? && Delivery(s, l) == Some((p, out)) && EvtClose in out
    requires Routed(d) && d.w == Step(s, l).w && d.w.init && p in d.w.heap && d.Route(p) == Some(id)
    requires id in d.holders && LeftToDefaultClose(BeforeClose(code, closes, d, id, out), id, p)
    ensures var mid := Step(s, l).(w := BeforeClose(code, closes, d, id, out).d.w);
      && Leads(Step(s, l), FromHandler(earlier), mid) && CallbackReturns !in FromHandler(earlier)
      && ClosesForGood(mid, p, closes, a, b, c)
    ensures var before, whole := BeforeClose(code, closes, d, id, out), OnAsyncIo(code, closes, d, p, out);
      && whole.ran == before.ran + [EvtClose] && whole.d.holders == before.d.Hold(id, None).holders
      && CallsLead(before.d.w, [Op.CloseDescriptor(p, closes), Op.Destroy(p)], whole.d.w)
  {
    hide CallsLead, ClosesForGood, Leads, Apply, Handle, Routed, BeforeClose, FromHandler, PollFlagsToEvents, Translate;
    DefaultClose(code, closes, d, id, p, out);
    assert CloseCalls(p, closes, true) == [Op.CloseDescriptor(p, closes), Op.Destroy(p)];
    StepKeepsClean(s, l);
    earlier := EarlierIsRun(Step(s, l), code, closes, d, id, out);
    var mid := Step(s, l).(w := BeforeClose(code, closes, d, id, out).d.w);
    SafeHasDistinctKeys(mid.w);
    CallbackCloses(mid, p, closes, a, b, c);
  }
}
