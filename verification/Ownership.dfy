/** The C++ wrappers as values: which wrapper holds which socket, the user data that links them, and the dispatch of
    events to a wrapper's handlers. */
module Ownership {
  import opened Events
  import opened Registry
  import opened World
  import opened Machine

  /** A wrapper's handler for an event: the default one, which closes the socket, or the program's own. */
  datatype Handler = CloseSocket | Custom(k: nat)

  const DEFAULT_HANDLERS: map<Event, Handler> := map[EvtClose := CloseSocket, EvtError := CloseSocket]

  /** A socket_base. Events without a handler are absent from `on`. */
  datatype Holder<P(==)> = Holder(held: Option<P>, on: map<Event, Handler>)

  /** The library and the live wrappers. A wrapper is known by its address, which is never zero. */
  datatype Desk<P(==)> = Desk(w: World<P>, holders: map<nat, Holder<P>>)
  {
    predicate Holds(id: nat, p: P) {
      id in holders && holders[id].held == Some(p)
    }

    ghost predicate IsHeld(p: P) {
      exists id :: Holds(id, p)
    }

    ghost predicate HeldElsewhere(id: nat, s: Option<P>) {
      s.Some? && exists other :: other != id && Holds(other, s.value)
    }

    /** The wrapper that the events of a socket go to. */
    function Route(p: P): Option<nat>
      requires p in w.heap
    {
      if w.heap[p].userData == 0 then None else Some(w.heap[p].userData)
    }

    function Hold(id: nat, s: Option<P>): Desk<P>
      requires id in holders
    {
      this.(holders := holders[id := holders[id].(held := s)])
    }

    function Handlers(id: nat, on: map<Event, Handler>): Desk<P>
      requires id in holders
    {
      this.(holders := holders[id := holders[id].(on := on)])
    }
  }

  /** What a program does with wrappers. `made` is a new socket and its descriptor, None when the call fails. */
  datatype Act<P(==)> =
    | Construct(id: nat)
    | SetHandlers(id: nat, on: map<Event, Handler>)
    | CreateIn(id: nat, made: Option<(P, int)>)
    | AcceptInto(listener: nat, client: nat, made: Option<(P, int)>)
    | Attach(id: nat, p: P)
    | Detach(id: nat)
    | Assign(to: nat, from: nat)
    | Close(id: nat, success: bool, destroy: bool)
    | Destruct(id: nat, success: bool)
    | Raw(op: Op<P>)
    | Background(w: World<P>)

  /** Masks, bits, callbacks, the registry and the flags may change at any time; the sockets and their user data change
      only by calls. */
  ghost predicate SameSockets<P>(w: World<P>, w': World<P>) {
    && w'.heap.Keys == w.heap.Keys
    && forall p | p in w.heap :: w'.heap[p].sd == w.heap[p].sd && w'.heap[p].userData == w.heap[p].userData
  }

  /** Wrappers attach only sockets no wrapper holds, and nobody else frees a held socket or writes user data. */
  ghost predicate Possible<P>(d: Desk<P>, a: Act<P>) {
    match a
    case Construct(id) => id != 0 && id !in d.holders
    case SetHandlers(id, _) => id in d.holders
    case CreateIn(id, made) => id in d.holders && (made.Some? ==> made.value.0 !in d.w.heap && made.value.1 >= 0)
    case AcceptInto(listener, client, made) =>
      listener in d.holders && client in d.holders && (made.Some? ==> made.value.0 !in d.w.heap && made.value.1 > 0)
    case Attach(id, p) => id in d.holders && p in d.w.heap && !d.HeldElsewhere(id, Some(p))
    case Detach(id) => id in d.holders
    case Assign(to, from) => to in d.holders && from in d.holders
    case Close(id, _, _) => id in d.holders
    case Destruct(id, _) => id in d.holders
    case Raw(op) =>
      && Callable(d.w, op) && !op.SetUserData?
      && (op.Create? ==> op.userData == 0) && (op.Destroy? ==> !d.IsHeld(op.p))
    case Background(w) => SameSockets(d.w, w)
  }

  /** Every socket's user data is zero or the one wrapper that holds it, and held sockets are live. */
  ghost predicate Routed<P>(d: Desk<P>) {
    && 0 !in d.holders
    && (forall p | p in d.w.heap ::
          d.w.heap[p].sd != -1 && (d.w.heap[p].userData != 0 ==> d.Holds(d.w.heap[p].userData, p)))
    && (forall id | id in d.holders && d.holders[id].held.Some? ::
          d.holders[id].held.value in d.w.heap && d.w.heap[d.holders[id].held.value].userData == id)
  }

  ghost predicate Live<P>(w: World<P>, s: Option<P>) {
    s.Some? ==> s.value in w.heap
  }

  ghost function WithUserData<P>(w: World<P>, s: Option<P>, data: nat): (w': World<P>)
    requires Live(w, s)
    ensures w'.heap.Keys == w.heap.Keys
  {
    if s.Some? then Apply(w, Op.SetUserData(s.value, data)) else w
  }

  /** attach(): the socket held so far loses its user data, the new one gets the wrapper's. */
  ghost function AttachTo<P>(d: Desk<P>, id: nat, s: Option<P>): (d': Desk<P>)
    requires id in d.holders && Live(d.w, d.holders[id].held) && Live(d.w, s)
    ensures d'.w.heap.Keys == d.w.heap.Keys && d'.holders == d.Hold(id, s).holders
  {
    d.(w := WithUserData(WithUserData(d.w, d.holders[id].held, 0), s, id)).Hold(id, s)
  }

  /** create(): gives up the socket held so far, then takes the new one. */
  ghost function Created<P>(d: Desk<P>, id: nat, made: Option<(P, int)>): Desk<P>
    requires id in d.holders && Live(d.w, d.holders[id].held)
    requires made.Some? ==> made.value.0 !in d.w.heap && made.value.1 >= 0
  {
    var d1 := AttachTo(d, id, None);
    if made.Some? then d1.(w := Apply(d1.w, Op.Create(made.value.0, made.value.1, id))).Hold(id, Some(made.value.0))
    else d1
  }

  /** Accepting into a wrapper that has just been emptied. */
  ghost function Accepted<P>(d: Desk<P>, listener: nat, client: nat, made: Option<(P, int)>): Desk<P>
    requires listener in d.holders && client in d.holders && d.holders[client].held == None
    requires Live(d.w, d.holders[listener].held)
    requires made.Some? ==> made.value.0 !in d.w.heap && made.value.1 > 0
  {
    var from := d.holders[listener].held;
    if from.Some? && d.w.heap[from.value].sd != -1 && made.Some?
    then AttachTo(d.(w := Apply(d.w, Op.Accept(from.value, made.value.0, made.value.1))), client, Some(made.value.0))
    else d
  }

  /** close() on a wrapper that holds a socket. */
  ghost function Closed<P>(d: Desk<P>, id: nat, p: P, success: bool, destroy: bool): Desk<P>
    requires id in d.holders && p in d.w.heap
  {
    var w := Apply(d.w, Op.CloseDescriptor(p, success));
    if destroy && d.w.heap[p].sd != -1 then d.(w := Apply(w, Op.Destroy(p))).Hold(id, None) else d.(w := w)
  }

  /** Move assignment: the socket and the handlers move over, and the source gets the default handlers. */
  ghost function Assigned<P>(d: Desk<P>, to: nat, from: nat): Desk<P>
    requires to in d.holders && from in d.holders && Live(d.w, d.holders[to].held) && Live(d.w, d.holders[from].held)
  {
    var d2 := AttachTo(AttachTo(d, from, None), to, d.holders[from].held);
    d2.Handlers(to, d2.holders[from].on).Handlers(from, DEFAULT_HANDLERS)
  }

  /** The destructor: deregisters, closes and frees the socket. */
  ghost function Destructed<P>(d: Desk<P>, id: nat, success: bool): Desk<P>
    requires id in d.holders && Live(d.w, d.holders[id].held)
  {
    var s := d.holders[id].held;
    var d1 := if s.Some?
      then Closed(d.(w := Apply(d.w, Op.AsyncPoll(s.value, None, 0, true, true))), id, s.value, success, true) else d;
    d1.(holders := d1.holders - {id})
  }

  ghost function Do<P>(d: Desk<P>, a: Act<P>): Desk<P>
    requires Routed(d) && Possible(d, a)
  {
    match a
    case Construct(id) => d.(holders := d.holders[id := Holder(None, DEFAULT_HANDLERS)])
    case SetHandlers(id, on) => d.Handlers(id, on)
    case CreateIn(id, made) => Created(d, id, made)
    case AcceptInto(listener, client, made) => Accepted(AttachTo(d, client, None), listener, client, made)
    case Attach(id, p) => AttachTo(d, id, Some(p))
    case Detach(id) => AttachTo(d, id, None)
    case Assign(to, from) => Assigned(d, to, from)
    case Close(id, success, destroy) =>
      if d.holders[id].held.Some? then Closed(d, id, d.holders[id].held.value, success, destroy) else d
    case Destruct(id, success) => Destructed(d, id, success)
    case Raw(op) => d.(w := Apply(d.w, op))
    case Background(w) => d.(w := w)
  }

  // ----- Routing follows ownership -----

  lemma AttachedSocket<P>(d: Desk<P>, id: nat, s: Option<P>, p: P)
    requires id in d.holders && Live(d.w, d.holders[id].held) && Live(d.w, s) && p in d.w.heap
    ensures AttachTo(d, id, s).w.heap[p] == d.w.heap[p].(
              userData := if s == Some(p) then id else if d.Holds(id, p) then 0 else d.w.heap[p].userData)
  {
  }

  lemma AttachKeepsRouted<P>(d: Desk<P>, id: nat, s: Option<P>)
    requires Routed(d) && id in d.holders && Live(d.w, s) && !d.HeldElsewhere(id, s)
    ensures Routed(AttachTo(d, id, s))
  {
    hide WithUserData;
    var d' := AttachTo(d, id, s);
    forall p | p in d'.w.heap
      ensures d'.w.heap[p].sd != -1 && (d'.w.heap[p].userData != 0 ==> d'.Holds(d'.w.heap[p].userData, p))
    {
      AttachedSocket(d, id, s, p);
    }
    forall other | other in d'.holders && d'.holders[other].held.Some?
      ensures var p := d'.holders[other].held.value; p in d'.w.heap && d'.w.heap[p].userData == other
    {
      AttachedSocket(d, id, s, d'.holders[other].held.value);
    }
  }

  lemma CloseKeepsRouted<P>(d: Desk<P>, id: nat, p: P, success: bool, destroy: bool)
    requires Routed(d) && d.Holds(id, p)
    ensures Routed(Closed(d, id, p, success, destroy))
    ensures destroy ==> Closed(d, id, p, success, destroy).holders[id].held == None
  {
  }

  /** No call but a user-data write changes whom an existing socket belongs to. */
  lemma OpKeepsLink<P>(w: World<P>, op: Op<P>, p: P)
    requires Callable(w, op) && !op.SetUserData? && p in w.heap && op != Op.Destroy(p)
    ensures var w' := Apply(w, op);
      p in w'.heap && w'.heap[p].sd == w.heap[p].sd && w'.heap[p].userData == w.heap[p].userData
  {
    if Polls(op) || op.Create? || op.Accept? || op.Destroy? {
    } else if op.p == p {
      hide AfterClose, AfterShutdown, AfterConnect, AfterListen;
      OwnLink(w.heap[p], op);
    }
  }

  lemma OwnLink<P>(s: Sock, op: Op<P>)
    requires Touches(op) && !op.SetUserData?
    ensures Touched(s, op).sd == s.sd && Touched(s, op).userData == s.userData
  {
  }

  /** The sockets after a call are those before it, except for one that it makes or frees. */
  lemma OpSockets<P>(w: World<P>, op: Op<P>)
    requires Callable(w, op)
    ensures var w' := Apply(w, op);
      match op
      case Create(p, sd, userData) => w'.heap.Keys == w.heap.Keys + {p} && w'.heap[p] == Sock(sd, userData, 0, 0, None)
      case Accept(_, p, sd) => w'.heap.Keys == w.heap.Keys + {p} && w'.heap[p] == Sock(sd, 0, 0, 0, None)
      case Destroy(p) => w'.heap.Keys == w.heap.Keys - {p}
      case _ => w'.heap.Keys == w.heap.Keys
  {
    hide Touched;
  }

  lemma OpKeepsRouted<P>(d: Desk<P>, op: Op<P>)
    requires Routed(d) && Possible(d, Raw(op))
    ensures Routed(d.(w := Apply(d.w, op)))
  {
    hide Apply;
    var w := Apply(d.w, op);
    OpSockets(d.w, op);
    forall p | p in w.heap
      ensures w.heap[p].sd != -1 && (w.heap[p].userData != 0 ==> d.Holds(w.heap[p].userData, p))
    {
      if p in d.w.heap {
        OpKeepsLink(d.w, op, p);
      }
    }
    forall id | id in d.holders && d.holders[id].held.Some?
      ensures d.holders[id].held.value in w.heap && w.heap[d.holders[id].held.value].userData == id
    {
      assert d.Holds(id, d.holders[id].held.value);
      OpKeepsLink(d.w, op, d.holders[id].held.value);
    }
  }

  lemma HandlersKeepRouted<P>(d: Desk<P>, id: nat, on: map<Event, Handler>)
    requires Routed(d) && id in d.holders
    ensures Routed(d.Handlers(id, on))
  {
  }

  /** Moving from a wrapper leaves it empty, so nobody but the target can hold the socket. */
  lemma DetachedIsFree<P>(d: Desk<P>, from: nat)
    requires Routed(d) && from in d.holders
    ensures forall to :: !AttachTo(d, from, None).HeldElsewhere(to, d.holders[from].held)
  {
    hide AttachTo;
  }

  lemma AssignKeepsRouted<P>(d: Desk<P>, to: nat, from: nat)
    requires Routed(d) && to in d.holders && from in d.holders
    ensures Routed(Do(d, Act.Assign(to, from)))
  {
    hide AttachTo, Routed;
    var s := d.holders[from].held;
    HeldIsLive(d, from);
    AttachKeepsRouted(d, from, None);
    var d1 := AttachTo(d, from, None);
    DetachedIsFree(d, from);
    HeldIsLive(d1, to);
    AttachKeepsRouted(d1, to, s);
    var d2 := AttachTo(d1, to, s);
    HandlersKeepRouted(d2, to, d2.holders[from].on);
    HandlersKeepRouted(d2.Handlers(to, d2.holders[from].on), from, DEFAULT_HANDLERS);
  }

  /** A wrapper move-assigned to itself keeps its socket and its link, but goes back to the default handlers: nothing
      changes exactly when it had those already. */
  lemma SelfMove<P>(d: Desk<P>, id: nat)
    requires Routed(d) && id in d.holders
    ensures Do(d, Act.Assign(id, id)) == d.Handlers(id, DEFAULT_HANDLERS)
    ensures Do(d, Act.Assign(id, id)) == d <==> d.holders[id].on == DEFAULT_HANDLERS
  {
    hide AttachTo;
    AttachBack(d, id);
  }

  /** Giving a socket up and taking it back changes nothing. */
  lemma AttachBack<P>(d: Desk<P>, id: nat)
    requires Routed(d) && id in d.holders
    ensures var d1 := AttachTo(d, id, None);
      && Live(d1.w, d1.holders[id].held) && Live(d1.w, d.holders[id].held)
      && AttachTo(d1, id, d.holders[id].held) == d
  {
    var s := d.holders[id].held;
    var d1 := AttachTo(d, id, None);
    var d2 := AttachTo(d1, id, s);
    forall p | p in d.w.heap ensures d2.w.heap[p] == d.w.heap[p] {
      AttachedSocket(d, id, None, p);
      AttachedSocket(d1, id, s, p);
    }
    assert d2.w.heap == d.w.heap;
  }

  lemma HeldIsLive<P>(d: Desk<P>, id: nat)
    requires Routed(d) && id in d.holders
    ensures Live(d.w, d.holders[id].held)
  {
  }

  lemma CreateKeepsRouted<P>(d: Desk<P>, id: nat, p: P, sd: int)
    requires Routed(d) && id in d.holders && d.holders[id].held == None && p !in d.w.heap && sd >= 0
    ensures Routed(d.(w := Apply(d.w, Op.Create(p, sd, id))).Hold(id, Some(p)))
  {
  }

  lemma AcceptKeepsRouted<P>(d: Desk<P>, listener: nat, client: nat, made: Option<(P, int)>)
    requires Routed(d) && listener in d.holders && client in d.holders && d.holders[client].held == None
    requires made.Some? ==> made.value.0 !in d.w.heap && made.value.1 > 0
    ensures Routed(Accepted(d, listener, client, made))
  {
    hide AttachTo;
    var from := d.holders[listener].held;
    if from.Some? && made.Some? {
      var op := Op.Accept(from.value, made.value.0, made.value.1);
      OpKeepsRouted(d, op);
      AttachKeepsRouted(d.(w := Apply(d.w, op)), client, Some(made.value.0));
    }
  }

  lemma DestructKeepsRouted<P>(d: Desk<P>, id: nat, success: bool)
    requires Routed(d) && id in d.holders
    ensures Routed(Do(d, Act.Destruct(id, success)))
  {
    hide Closed;
    var s := d.holders[id].held;
    if s.Some? {
      var op := Op.AsyncPoll(s.value, None, 0, true, true);
      OpKeepsRouted(d, op);
      CloseKeepsRouted(d.(w := Apply(d.w, op)), id, s.value, success, true);
    }
  }

  /** Every act keeps the link between wrappers and sockets. */
  lemma DoKeepsRouted<P>(d: Desk<P>, a: Act<P>)
    requires Routed(d) && Possible(d, a)
    ensures Routed(Do(d, a))
  {
    hide AttachTo, Accepted, Closed, Apply;
    match a
    case Construct(id) =>
    case SetHandlers(id, on) => HandlersKeepRouted(d, id, on);
    case CreateIn(id, made) =>
      AttachKeepsRouted(d, id, None);
      if made.Some? {
        CreateKeepsRouted(AttachTo(d, id, None), id, made.value.0, made.value.1);
      }
    case AcceptInto(listener, client, made) =>
      AttachKeepsRouted(d, client, None);
      AcceptKeepsRouted(AttachTo(d, client, None), listener, client, made);
    case Attach(id, p) => AttachKeepsRouted(d, id, Some(p));
    case Detach(id) => AttachKeepsRouted(d, id, None);
    case Assign(to, from) => AssignKeepsRouted(d, to, from);
    case Close(id, success, destroy) =>
      if d.holders[id].held.Some? {
        CloseKeepsRouted(d, id, d.holders[id].held.value, success, destroy);
      }
    case Destruct(id, success) => DestructKeepsRouted(d, id, success);
    case Raw(op) => OpKeepsRouted(d, op);
    case Background(w) =>
  }

  // ----- What each act leaves behind -----

  /** Who holds what, and which handlers it has, after each act. */
  lemma HoldersAfter<P>(d: Desk<P>, a: Act<P>)
    requires Routed(d) && Possible(d, a)
    ensures Do(d, a).holders ==
      match a
      case Construct(id) => d.holders[id := Holder(None, map[EvtClose := CloseSocket, EvtError := CloseSocket])]
      case SetHandlers(id, on) => d.holders[id := Holder(d.holders[id].held, on)]
      case CreateIn(id, made) =>
        d.holders[id := Holder(if made.Some? then Some(made.value.0) else None, d.holders[id].on)]
      case AcceptInto(listener, client, made) =>
        d.holders[client := Holder(if listener != client && d.holders[listener].held.Some? && made.Some?
                                   then Some(made.value.0) else None, d.holders[client].on)]
      case Attach(id, p) => d.holders[id := Holder(Some(p), d.holders[id].on)]
      case Detach(id) => d.holders[id := Holder(None, d.holders[id].on)]
      case Assign(to, from) =>
        if to == from
        then d.holders[to := Holder(d.holders[to].held, map[EvtClose := CloseSocket, EvtError := CloseSocket])]
        else d.holders[to := d.holders[from]]
                      [from := Holder(None, map[EvtClose := CloseSocket, EvtError := CloseSocket])]
      case Close(id, _, destroy) =>
        if destroy then d.holders[id := Holder(None, d.holders[id].on)] else d.holders
      case Destruct(id, _) => d.holders - {id}
      case Raw(_) => d.holders
      case Background(_) => d.holders
  {
    hide AttachTo, Apply, Accepted, Assigned, Created;
    match a
    case CreateIn(id, made) => CreateHolders(d, id, made);
    case AcceptInto(listener, client, made) => AcceptHolders(d, listener, client, made);
    case Assign(to, from) => AssignHolders(d, to, from);
    case Close(id, _, _) => SameHolder(d, id);
    case _ =>
  }

  lemma SameHolder<P>(d: Desk<P>, id: nat)
    requires id in d.holders
    ensures d.holders[id := Holder(d.holders[id].held, d.holders[id].on)] == d.holders
  {
  }

  lemma CreateHolders<P>(d: Desk<P>, id: nat, made: Option<(P, int)>)
    requires Routed(d) && Possible(d, Act.CreateIn(id, made))
    ensures Do(d, Act.CreateIn(id, made)).holders
         == d.holders[id := Holder(if made.Some? then Some(made.value.0) else None, d.holders[id].on)]
  {
    hide AttachTo, Apply;
  }

  lemma AssignHolders<P>(d: Desk<P>, to: nat, from: nat)
    requires Routed(d) && Possible(d, Act.Assign(to, from))
    ensures Do(d, Act.Assign(to, from)).holders
         == if to == from
            then d.holders[to := Holder(d.holders[to].held, map[EvtClose := CloseSocket, EvtError := CloseSocket])]
            else d.holders[to := d.holders[from]]
                          [from := Holder(None, map[EvtClose := CloseSocket, EvtError := CloseSocket])]
  {
    hide AttachTo, Apply, Routed;
    HeldIsLive(d, from);
    HeldIsLive(d, to);
    SameHolder(d, to);
  }

  lemma AcceptHolders<P>(d: Desk<P>, listener: nat, client: nat, made: Option<(P, int)>)
    requires Routed(d) && Possible(d, Act.AcceptInto(listener, client, made))
    ensures Do(d, Act.AcceptInto(listener, client, made)).holders
         == d.holders[client := Holder(if listener != client && d.holders[listener].held.Some? && made.Some?
                                       then Some(made.value.0) else None, d.holders[client].on)]
  {
    hide AttachTo, Apply;
    HeldIsLive(d, client);
    AttachKeepsRouted(d, client, None);
  }

  lemma AttachKeepsSockets<P>(d: Desk<P>, id: nat, s: Option<P>)
    requires id in d.holders && Live(d.w, d.holders[id].held) && Live(d.w, s)
    ensures var w := AttachTo(d, id, s).w;
      w == d.w.(heap := w.heap) && w.heap.Keys == d.w.heap.Keys
  {
  }

  lemma ClosedSockets<P>(d: Desk<P>, id: nat, p: P, success: bool, destroy: bool)
    requires id in d.holders && p in d.w.heap && d.w.heap[p].sd != -1
    ensures var w, sd := Closed(d, id, p, success, destroy).w, d.w.heap[p].sd;
      && w.heap.Keys == d.w.heap.Keys - (if destroy then {p} else {})
      && w == d.w.(heap := w.heap, reg := if destroy && d.w.init then Remove(d.w.reg, sd) else d.w.reg)
      && (!destroy ==> w == Apply(d.w, Op.CloseDescriptor(p, success)))
  {
    hide AfterClose, Remove;
    OwnLink(d.w.heap[p], Op<P>.CloseDescriptor(p, success));
  }

  /** The destructor's first call takes the descriptor off the list, or does nothing. */
  lemma DeregisterSockets<P>(w: World<P>, p: P)
    requires p in w.heap
    ensures var w' := Apply(w, Op.AsyncPoll(p, None, 0, true, true));
      && w' == w.(reg := w'.reg) && w'.reg in {w.reg, Remove(w.reg, w.heap[p].sd)}
  {
    hide Remove, Has;
  }

  /** The sockets that there are after each act. */
  lemma SocketsAfter<P>(d: Desk<P>, a: Act<P>)
    requires Routed(d) && Possible(d, a) && !a.Raw? && !a.Background?
    ensures Do(d, a).w.heap.Keys ==
      match a
      case CreateIn(_, made) => d.w.heap.Keys + (if made.Some? then {made.value.0} else {})
      case AcceptInto(listener, client, made) =>
        d.w.heap.Keys
          + (if listener != client && d.holders[listener].held.Some? && made.Some? then {made.value.0} else {})
      case Close(id, _, destroy) =>
        d.w.heap.Keys - (if destroy && d.holders[id].held.Some? then {d.holders[id].held.value} else {})
      case Destruct(id, _) =>
        d.w.heap.Keys - (if d.holders[id].held.Some? then {d.holders[id].held.value} else {})
      case _ => d.w.heap.Keys
  {
    hide AttachTo, Apply, Closed, Accepted;
    match a
    case CreateIn(id, made) =>
      if made.Some? {
        OpSockets(AttachTo(d, id, None).w, Op.Create(made.value.0, made.value.1, id));
      }
    case AcceptInto(listener, client, made) => AcceptSockets(d, listener, client, made);
    case Close(id, success, destroy) =>
      if d.holders[id].held.Some? {
        ClosedSockets(d, id, d.holders[id].held.value, success, destroy);
      }
    case Destruct(id, success) =>
      if d.holders[id].held.Some? {
        DestructSockets(d, id, success);
      }
    case _ =>
  }

  lemma AcceptSockets<P>(d: Desk<P>, listener: nat, client: nat, made: Option<(P, int)>)
    requires Routed(d) && Possible(d, Act.AcceptInto(listener, client, made))
    ensures Do(d, Act.AcceptInto(listener, client, made)).w.heap.Keys == d.w.heap.Keys
      + (if listener != client && d.holders[listener].held.Some? && made.Some? then {made.value.0} else {})
  {
    hide AttachTo, Apply;
    HeldIsLive(d, client);
    AttachKeepsRouted(d, client, None);
    var d1 := AttachTo(d, client, None);
    if d1.holders[listener].held.Some? && made.Some? {
      OpSockets(d1.w, Op.Accept(d1.holders[listener].held.value, made.value.0, made.value.1));
    }
  }

  lemma DestructSockets<P>(d: Desk<P>, id: nat, success: bool)
    requires Routed(d) && id in d.holders && d.holders[id].held.Some?
    ensures var w, p := Do(d, Act.Destruct(id, success)).w, d.holders[id].held.value;
      && w.heap.Keys == d.w.heap.Keys - {p}
      && (d.w.init && DistinctKeys(d.w.reg) ==> !Has(w.reg, d.w.heap[p].sd))
  {
    hide Apply, Closed, Remove, Has, DistinctKeys;
    var p := d.holders[id].held.value;
    var w := Apply(d.w, Op.AsyncPoll(p, None, 0, true, true));
    DeregisterSockets(d.w, p);
    ClosedSockets(d.(w := w), id, p, success, true);
    if DistinctKeys(d.w.reg) {
      RemoveForgets(d.w.reg, d.w.heap[p].sd);
      RemoveForgets(w.reg, d.w.heap[p].sd);
    }
  }

  /** After close() with destruction, or the destructor, of a wrapper that holds a socket, the socket's descriptor is
      not in the list, if async I/O is up. */
  lemma GoneFromRegistry<P>(d: Desk<P>, a: Act<P>)
    requires Routed(d) && Possible(d, a) && ((a.Close? && a.destroy) || a.Destruct?)
    requires d.holders[a.id].held.Some? && d.w.init && DistinctKeys(d.w.reg)
    ensures !Has(Do(d, a).w.reg, d.w.heap[d.holders[a.id].held.value].sd)
  {
    hide Closed, Remove, DistinctKeys, Has, Destructed;
    var p := d.holders[a.id].held.value;
    if a.Destruct? {
      DestructSockets(d, a.id, a.success);
    } else {
      ClosedSockets(d, a.id, p, a.success, true);
      RemoveForgets(d.w.reg, d.w.heap[p].sd);
    }
  }

  ghost predicate Course<P>(d: Desk<P>, acts: seq<Act<P>>)
    requires Routed(d)
    decreases |acts|
  {
    acts == [] || (Possible(d, acts[0]) && (DoKeepsRouted(d, acts[0]); Course(Do(d, acts[0]), acts[1..])))
  }

  ghost function DoAll<P>(d: Desk<P>, acts: seq<Act<P>>): Desk<P>
    requires Routed(d) && Course(d, acts)
    decreases |acts|
  {
    if acts == [] then d else DoKeepsRouted(d, acts[0]); DoAll(Do(d, acts[0]), acts[1..])
  }

  lemma {:induction false} CourseKeepsRouted<P>(d: Desk<P>, acts: seq<Act<P>>)
    requires Routed(d) && Course(d, acts)
    ensures Routed(DoAll(d, acts))
    decreases |acts|
  {
    if acts != [] {
      DoKeepsRouted(d, acts[0]);
      CourseKeepsRouted(Do(d, acts[0]), acts[1..]);
    }
  }

  /** After any course of acts from the start, interleaved with anything the library does in the background: a socket's
      events go to a wrapper exactly when that wrapper is alive and holds the socket, and to no wrapper when none holds
      it. */
  lemma RoutingFollowsOwnership<P>(init: bool, die: bool, acts: seq<Act<P>>, p: P, id: nat)
    requires Course(Desk(World(map[], [], init, die), map[]), acts)
    requires p in DoAll(Desk(World(map[], [], init, die), map[]), acts).w.heap
    ensures var d := DoAll(Desk(World(map[], [], init, die), map[]), acts);
      && (d.Route(p) == Some(id) <==> d.Holds(id, p))
      && (d.Route(p) == None <==> !d.IsHeld(p))
  {
    CourseKeepsRouted(Desk(World(map[], [], init, die), map[]), acts);
  }

  lemma ServeIsBackground<P>(s: State<P>, l: Label<P>)
    requires Enabled(s, l) && l.Serve?
    ensures SameSockets(s.w, ServeStep(s, l).w)
  {
    hide Translate, PollFlagsToEvents, Remove, Enabled, Find;
  }

  /** What the event thread and the control threads do by themselves is background. */
  lemma ThreadIsBackground<P>(s: State<P>, l: Label<P>)
    requires Enabled(s, l) && (l.OfThread() || l.OfControl())
    ensures SameSockets(s.w, Step(s, l).w)
  {
    hide ServeStep, Remove, PollArray, AllLive;
    if l.Serve? {
      ServeIsBackground(s, l);
    }
  }
}
