/** The C++ socket wrapper on the heap, over the heap library. Each method is proved to be the act of the same name in
    Ownership, seen from any set of wrappers. */
module Wrapper {
  import opened Events
  import opened Registry
  import opened World
  import opened SocketList
  import opened Engine
  import opened Ownership

  function AsOption(s: BalSocket?): Option<BalSocket> {
    if s == null then None else Some(s)
  }

  /** Wrappers live at distinct addresses, none of them null. */
  ghost predicate Distinct(ws: set<SocketWrapper>) {
    && (forall w | w in ws :: w.id != 0)
    && (forall v, w | v in ws && w in ws && v != w :: v.id != w.id)
  }

  ghost function HoldersOf(ws: set<SocketWrapper>): map<nat, Holder<BalSocket>>
    requires Distinct(ws)
    reads ws
  {
    map w | w in ws :: w.id := w.Value()
  }

  /** The library and a set of wrappers as a value. */
  ghost function View(lib: Library, ws: set<SocketWrapper>): Desk<BalSocket>
    requires Distinct(ws)
    reads lib, lib.sockets, lib.list, ws
  {
    Desk(lib.Abs(), HoldersOf(ws))
  }

  /** The wrappers' addresses, which never change. */
  ghost function Ids(ws: set<SocketWrapper>): set<nat> {
    set w | w in ws :: w.id
  }

  lemma InView(ws: set<SocketWrapper>)
    requires Distinct(ws)
    ensures HoldersOf(ws).Keys == Ids(ws)
    ensures forall w | w in ws :: w.id in HoldersOf(ws) && HoldersOf(ws)[w.id] == w.Value()
  {
  }

  /** Changing one wrapper changes what it holds and nothing about the others. */
  lemma OneWrapperChanged(before: map<nat, Holder<BalSocket>>, ws: set<SocketWrapper>, w: SocketWrapper)
    requires Distinct(ws) && w in ws && before.Keys == Ids(ws)
    requires forall v | v in ws && v != w :: v.id in before && before[v.id] == v.Value()
    ensures HoldersOf(ws) == before[w.id := w.Value()]
  {
  }

  lemma OneWrapperGone(ws: set<SocketWrapper>, w: SocketWrapper)
    requires Distinct(ws) && w in ws
    ensures HoldersOf(ws - {w}) == HoldersOf(ws) - {w.id}
  {
  }

  /** A socket_base; `id` stands for its address. */
  class SocketWrapper {
    const id: nat
    var s: BalSocket?
    var on: map<Event, Handler>

    constructor (id: nat)
      requires id != 0
      ensures this.id == id && Value() == Holder(None, DEFAULT_HANDLERS)
    {
      this.id, s, on := id, null, DEFAULT_HANDLERS;
    }

    function Value(): Holder<BalSocket>
      reads this
    {
      Holder(AsOption(s), on)
    }

    /** Moves user data from one socket to another. */
    static method Relink(lib: Library, former: BalSocket?, taken: BalSocket?, id: nat)
      requires lib.Valid()
      requires (former != null ==> former in lib.sockets) && (taken != null ==> taken in lib.sockets)
      modifies (if former != null then {former} else {}), (if taken != null then {taken} else {})
      ensures lib.Valid() && Live(old(lib.Abs()), AsOption(former)) && Live(old(lib.Abs()), AsOption(taken))
      ensures lib.Abs() == WithUserData(WithUserData(old(lib.Abs()), AsOption(former), 0), AsOption(taken), id)
    {
      hide BalList.Valid, Apply, HoldersOf, Ids;
      if former != null {
        lib.InHeap(former);
        lib.SetUserData(former, 0);
      }
      if taken != null {
        lib.InHeap(taken);
        lib.SetUserData(taken, id);
      }
    }

    /** Takes over a socket, or none, and gives up the one held so far. */
    method Attach(lib: Library, taken: BalSocket?, ghost ws: set<SocketWrapper>) returns (former: BalSocket?)
      requires lib.Valid() && Distinct(ws) && this in ws
      requires (s != null ==> s in lib.sockets) && (taken != null ==> taken in lib.sockets)
      modifies this`s, (if s != null then {s} else {}), (if taken != null then {taken} else {})
      ensures lib.Valid() && former == old(s) && s == taken
      ensures id in old(View(lib, ws)).holders && Live(old(lib.Abs()), old(Value()).held)
      ensures Live(old(lib.Abs()), AsOption(taken))
      ensures View(lib, ws) == AttachTo(old(View(lib, ws)), id, AsOption(taken))
    {
      hide BalList.Valid, Apply, WithUserData, Library.Abs, HoldersOf, Ids;
      ghost var before := HoldersOf(ws);
      InView(ws);
      former := s;
      s := taken;
      Relink(lib, former, taken, id);
      OneWrapperChanged(before, ws, this);
    }

    method Detach(lib: Library, ghost ws: set<SocketWrapper>) returns (former: BalSocket?)
      requires lib.Valid() && Distinct(ws) && this in ws && (s != null ==> s in lib.sockets)
      modifies this`s, (if s != null then {s} else {})
      ensures lib.Valid() && former == old(s) && s == null
      ensures id in old(View(lib, ws)).holders && Live(old(lib.Abs()), old(Value()).held)
      ensures View(lib, ws) == AttachTo(old(View(lib, ws)), id, None)
    {
      hide BalList.Valid, AttachTo, HoldersOf, Ids;
      former := Attach(lib, null, ws);
    }

    /** bal_create() into an empty wrapper. */
    method Acquire(lib: Library, sd: int, memory: bool, ghost ws: set<SocketWrapper>) returns (ok: bool)
      requires lib.Valid() && Distinct(ws) && this in ws && s == null && sd >= -1
      modifies this`s, lib`sockets
      ensures lib.Valid() && ok == (memory && sd != -1) && (ok ==> s != null && fresh(s)) && (!ok ==> s == null)
      ensures ok ==> s !in old(lib.Abs()).heap && id in old(View(lib, ws)).holders
      ensures var d := old(View(lib, ws));
        View(lib, ws) == if ok then d.(w := Apply(d.w, Op.Create(s, sd, id))).Hold(id, Some(s)) else d
    {
      hide BalList.Valid, Apply, Library.Abs, HoldersOf, Ids;
      ghost var before := HoldersOf(ws);
      InView(ws);
      s := lib.Create(sd, id, memory);
      ok := s != null;
      OneWrapperChanged(before, ws, this);
    }

    /** create(): `sd` is what socket() returned. */
    method Create(lib: Library, sd: int, memory: bool, ghost ws: set<SocketWrapper>) returns (ok: bool)
      requires lib.Valid() && Distinct(ws) && this in ws && (s != null ==> s in lib.sockets) && sd >= -1
      modifies this`s, (if s != null then {s} else {}), lib`sockets
      ensures lib.Valid() && ok == (memory && sd != -1) && (ok ==> s != null && fresh(s)) && (!ok ==> s == null)
      ensures id in old(View(lib, ws)).holders && Live(old(lib.Abs()), old(Value()).held)
      ensures ok ==> s !in old(lib.Abs()).heap && sd >= 0
      ensures View(lib, ws) == Created(old(View(lib, ws)), id, if ok then Some((s, sd)) else None)
    {
      hide BalList.Valid, AttachTo, Apply, Library.Abs, HoldersOf, Ids;
      var former := Detach(lib, ws);
      ok := Acquire(lib, sd, memory, ws);
    }

    /** The part of accept() that comes after the client has been emptied. */
    method AcceptInto(lib: Library, client: SocketWrapper, sd: int, memory: bool, ghost ws: set<SocketWrapper>)
      returns (ok: bool)
      requires lib.Valid() && Distinct(ws) && this in ws && client in ws
      requires (s != null ==> s in lib.sockets) && client.s == null
      modifies client`s, lib`sockets
      ensures lib.Valid() && ok == (memory && sd > 0 && old(s) != null && old(s.Value().sd) != -1)
      ensures if ok then client.s != null && fresh(client.s) && client.s !in old(lib.Abs()).heap else client.s == null
      ensures var d := old(View(lib, ws));
        && id in d.holders && Live(d.w, d.holders[id].held)
        && client.id in d.holders && d.holders[client.id].held == None
        && View(lib, ws) == Accepted(d, id, client.id, if ok then Some((client.s, sd)) else None)
    {
      hide BalList.Valid, Apply, AttachTo, Library.Abs, Library.Valid, HoldersOf, Ids;
      InView(ws);
      ok := false;
      if s != null {
        lib.InHeap(s);
        var made := lib.Accept(s, sd, memory);
        if made != null {
          ok := true;
          var former := client.Attach(lib, made, ws);
        }
      }
    }

    /** accept(): `sd` is what accept() returned for the descriptor this wrapper listens on. */
    method Accept(lib: Library, client: SocketWrapper, sd: int, memory: bool, ghost ws: set<SocketWrapper>)
      returns (ok: bool)
      requires lib.Valid() && Distinct(ws) && this in ws && client in ws
      requires (s != null ==> s in lib.sockets) && (client.s != null ==> client.s in lib.sockets)
      modifies client`s, (if client.s != null then {client.s} else {}), lib`sockets
      ensures lib.Valid() && (ok ==> client.s != null && fresh(client.s) && client.s !in old(lib.Abs()).heap)
      ensures ok ==> sd > 0
      ensures var d := old(View(lib, ws));
        && id in d.holders && client.id in d.holders
        && Live(d.w, d.holders[id].held) && Live(d.w, d.holders[client.id].held)
        && View(lib, ws)
           == Accepted(AttachTo(d, client.id, None), id, client.id, if ok then Some((client.s, sd)) else None)
    {
      hide BalList.Valid, Apply, AttachTo, Accepted, HoldersOf, Ids;
      InView(ws);
      var former := client.Detach(lib, ws);
      ok := AcceptInto(lib, client, sd, memory, ws);
    }

    /** The handlers move over, and the source gets the default ones. */
    method TakeHandlers(lib: Library, rhs: SocketWrapper, ghost ws: set<SocketWrapper>)
      requires Distinct(ws) && this in ws && rhs in ws
      modifies this`on, rhs`on
      ensures lib.Abs() == old(lib.Abs()) && s == old(s) && rhs.s == old(rhs.s)
      ensures var d := old(View(lib, ws));
        && id in d.holders && rhs.id in d.holders
        && View(lib, ws) == d.Handlers(id, d.holders[rhs.id].on).Handlers(rhs.id, DEFAULT_HANDLERS)
    {
      hide Library.Abs, HoldersOf, Ids;
      InView(ws);
      ghost var before := HoldersOf(ws);
      on := rhs.on;
      OneWrapperChanged(before, ws, this);
      ghost var between := HoldersOf(ws);
      InView(ws);
      rhs.on := DEFAULT_HANDLERS;
      OneWrapperChanged(between, ws, rhs);
    }

    /** Move assignment, also from the wrapper itself. */
    method Assign(lib: Library, rhs: SocketWrapper, ghost ws: set<SocketWrapper>)
      requires lib.Valid() && Distinct(ws) && this in ws && rhs in ws
      requires (s != null ==> s in lib.sockets) && (rhs.s != null ==> rhs.s in lib.sockets)
      modifies this, rhs, (if s != null then {s} else {}), (if rhs.s != null then {rhs.s} else {})
      ensures lib.Valid()
      ensures var d := old(View(lib, ws));
        && id in d.holders && rhs.id in d.holders
        && Live(d.w, d.holders[id].held) && Live(d.w, d.holders[rhs.id].held)
        && View(lib, ws) == Assigned(d, id, rhs.id)
    {
      hide BalList.Valid, AttachTo, Library.Abs, HoldersOf, Ids;
      InView(ws);
      var moved := rhs.Detach(lib, ws);
      var former := Attach(lib, moved, ws);
      TakeHandlers(lib, rhs, ws);
    }

    method Close(lib: Library, t: nat, success: bool, destroy: bool, ghost ws: set<SocketWrapper>) returns (ok: bool)
      requires lib.Valid() && Distinct(ws) && this in ws && lib.mutex.Available(t) && (s != null ==> s in lib.sockets)
      modifies this`s, lib`sockets, lib.list, lib.list.nodes, lib.mutex, (if s != null then {s} else {})
      ensures lib.Valid() && lib.mutex.owner == old(lib.mutex.owner) && lib.mutex.depth == old(lib.mutex.depth)
      ensures ok == (success && old(s) != null && old(s.Value().sd) != -1)
      ensures old(s) != null && destroy && old(s.Value().sd) != -1 ==> s == null && !old(s).Live()
      ensures var d := old(View(lib, ws));
        if old(s) == null then View(lib, ws) == d
        else id in d.holders && old(s) in d.w.heap && View(lib, ws) == Closed(d, id, old(s), success, destroy)
    {
      hide BalList.Valid, Apply, Library.Abs, HoldersOf, Ids;
      InView(ws);
      ok := false;
      if s != null {
        lib.InHeap(s);
        ghost var before := HoldersOf(ws);
        var frees := destroy && s.Sd() != -1;
        ok := lib.Close(t, s, success, destroy);
        if frees {
          s := null;
        }
        OneWrapperChanged(before, ws, this);
      }
    }

    /** The destructor of a scoped socket. The wrapper must not be used afterwards. */
    method Destruct(lib: Library, t: nat, success: bool, ghost ws: set<SocketWrapper>)
      requires lib.Valid() && Distinct(ws) && this in ws && lib.mutex.Available(t) && (s != null ==> s in lib.sockets)
      modifies this`s, lib`sockets, lib.list, lib.list.nodes, lib.mutex
      modifies if s != null then {s} else {}
      ensures lib.Valid() && lib.mutex.owner == old(lib.mutex.owner) && lib.mutex.depth == old(lib.mutex.depth)
      ensures var d := old(View(lib, ws));
        && id in d.holders && Live(d.w, d.holders[id].held)
        && View(lib, ws - {this}) == Destructed(d, id, success)
    {
      hide BalList.Valid, ApplyAsyncPoll, AsyncPollStatus, Library.Abs, Closed, HoldersOf, Ids;
      InView(ws);
      if s != null {
        lib.InHeap(s);
        var status := lib.AsyncPoll(t, s, None, 0, true, true);
        assert forall i | 0 <= i < |lib.list.nodes| :: lib.list.nodes[i] in lib.list.nodes;
        var closed := Close(lib, t, success, true, ws);
      }
      OneWrapperGone(ws, this);
    }
  }
}
