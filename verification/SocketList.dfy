/** The doubly linked list of registered sockets with its built-in iterator, as a heap structure.

    Nodes are allocated and freed explicitly. Every access to a node in this file goes through a member that requires it
    to be live, so none of the methods below follows a freed node. */
module SocketList {
  import opened Events
  import opened Registry
  import opened World

  function Gate(events: set<Event>, mask: set<Event>, e: Event): set<Event> {
    if e in events && e in mask then {e} else {}
  }

  /** What the readable branch makes of a socket and raw events: the events it produces, the raw events it leaves to the
      branches after it, and the socket's mask and bits. */
  ghost predicate ReadBranch(i: Polled, produced: set<Event>, left: set<Event>, mask: bv32, bits: bv32) {
    var decided := i.DecidedByRead();
    && produced == (if i.Wanted(EvtRead) && i.listening then {EvtAccept}
                    else if decided then {if i.Failed() then EvtConnFail else EvtConnect}
                    else if i.Input() then {if i.peerClosed then EvtClose else EvtRead}
                    else {})
    && left == Decode(i.raw) - (if decided && i.Failed() then {EvtError} else {})
    && mask == (if decided then SetLow(i.mask, Bit(EvtWrite)) else i.mask)
    && bits == (if decided then SetLow(i.bits, S_CONNECT) else i.bits)
  }

  /** The same for the writable branch, which works on what the readable branch left. */
  ghost predicate WriteBranch(events: set<Event>, mask: bv32, bits: bv32,
                              produced: set<Event>, left: set<Event>, mask': bv32, bits': bv32) {
    var wanted := EvtWrite in events && EvtWrite in Decode(mask);
    var decided, failed := wanted && IsSet(bits, S_CONNECT), EvtClose in events || EvtError in events;
    && produced == (if decided then {if failed then EvtConnFail else EvtConnect} else if wanted then {EvtWrite} else {})
    && left == events - (if decided && failed then {EvtError} else {})
    && mask' == (if decided then SetLow(mask, Bit(EvtWrite)) else mask)
    && bits' == (if decided then SetLow(bits, S_CONNECT) else bits)
  }

  /** The sets of events at the joints of the translation: what the readable and the writable branch produce, and what
      they leave of the raw events and the mask. */
  datatype Parts = Parts(read: set<Event>, left: set<Event>, wants: set<Event>,
                         write: set<Event>, left': set<Event>, wants': set<Event>)
  {
    ghost predicate Through(i: Polled, mask1: bv32, bits1: bv32, mask2: bv32, bits2: bv32) {
      && ReadBranch(i, read, left, mask1, bits1) && wants == Decode(mask1)
      && WriteBranch(left, mask1, bits1, write, left', mask2, bits2) && wants' == Decode(mask2)
    }

    /** All events that go to the callback. */
    function All(): set<Event> {
      read + Gate(left, wants, EvtOobRead) + write
        + Gate(left', wants', EvtOobWrite) + Gate(left', wants', EvtClose)
        + Gate(left', wants', EvtPriority) + Gate(left', wants', EvtError) + Gate(left', wants', EvtInvalid)
    }
  }

  /** Only one of the two branches can decide a pending connection: the readable one takes write interest away. */
  lemma DecidedOnce(i: Polled, p: Parts, mask1: bv32, bits1: bv32, mask2: bv32, bits2: bv32)
    requires p.Through(i, mask1, bits1, mask2, bits2)
    ensures if i.DecidedByRead() then p.wants == Decode(i.mask) - {EvtWrite} && mask2 == mask1 && bits2 == bits1
            else mask1 == i.mask && bits1 == i.bits && p.left == Decode(i.raw)
  {
    hide Bit, SetLow, Decode, IsSet;
    LowDrops(i.mask, Bit(EvtWrite));
    DecodeBit(EvtWrite);
  }

  lemma AllOf(p: Parts, e: Event)
    ensures e in p.All() <==>
      || e in p.read || (e == EvtOobRead && e in p.left && e in p.wants) || e in p.write
      || (e in {EvtOobWrite, EvtClose, EvtPriority, EvtError, EvtInvalid} && e in p.left' && e in p.wants')
  {
  }

  /** The two branches together leave the socket as the closed form says. */
  lemma PartsState(i: Polled, p: Parts, mask1: bv32, bits1: bv32, mask2: bv32, bits2: bv32)
    requires p.Through(i, mask1, bits1, mask2, bits2)
    ensures mask2 == Translate(i).mask && bits2 == Translate(i).bits
    ensures p.wants' == Decode(i.mask) - (if i.Decided() then {EvtWrite} else {})
  {
    hide Bit, SetLow, Decode, IsSet, Polled.Delivers;
    DecidedOnce(i, p, mask1, bits1, mask2, bits2);
    LowDrops(i.mask, Bit(EvtWrite));
    DecodeBit(EvtWrite);
  }

  lemma PartsDrop(i: Polled, p: Parts, mask1: bv32, bits1: bv32, mask2: bv32, bits2: bv32)
    requires p.Through(i, mask1, bits1, mask2, bits2)
    ensures EvtClose in p.left' || EvtInvalid in p.left' <==> Translate(i).drop
  {
    hide Bit, SetLow, Decode, IsSet, Polled.Delivers;
  }

  /** What the two branches produce, and what they leave for the rest. */
  lemma PartsShape(i: Polled, p: Parts, mask1: bv32, bits1: bv32, mask2: bv32, bits2: bv32)
    requires p.Through(i, mask1, bits1, mask2, bits2)
    ensures var outcome := if i.Failed() then EvtConnFail else EvtConnect;
      && p.read == (if i.Wanted(EvtRead) && i.listening then {EvtAccept}
                    else if i.DecidedByRead() then {outcome}
                    else if i.Input() then {if i.peerClosed then EvtClose else EvtRead}
                    else {})
      && p.write == (if i.DecidedByRead() || !i.Wanted(EvtWrite) then {}
                     else if i.Pending() then {outcome}
                     else {EvtWrite})
      && p.left' == Decode(i.raw) - (if i.Decided() && i.Failed() then {EvtError} else {})
      && (EvtOobRead in p.left && EvtOobRead in p.wants <==> i.Wanted(EvtOobRead))
  {
    hide Bit, SetLow, Decode, IsSet;
    DecidedOnce(i, p, mask1, bits1, mask2, bits2);
  }

  /** The branches of the translation, each working on what the ones before it left, add up to the closed form. */
  lemma PartsAddUp(i: Polled, p: Parts, mask1: bv32, bits1: bv32, mask2: bv32, bits2: bv32, e: Event)
    requires p.Through(i, mask1, bits1, mask2, bits2)
    ensures e in p.All() <==> i.Delivers(e)
  {
    hide Bit, SetLow, Decode, IsSet, Parts.All, Parts.Through;
    AllOf(p, e);
    PartsShape(i, p, mask1, bits1, mask2, bits2);
    PartsState(i, p, mask1, bits1, mask2, bits2);
    match e
    case EvtRead =>
    case EvtWrite =>
    case EvtConnect =>
    case EvtConnFail =>
    case EvtAccept =>
    case EvtClose =>
    case EvtPriority =>
    case EvtError =>
    case EvtInvalid =>
    case EvtOobRead =>
    case EvtOobWrite =>
  }

  /** A bal_socket on the heap. Its memory holds nothing once it has been freed, so a body that reads or writes a field
      of a freed socket does not verify. Whether `memory` holds something is for specifications to ask; no body does. */
  class BalSocket {
    var memory: Option<Sock>

    constructor (sd: int, userData: nat)
      ensures Live() && Value() == Sock(sd, userData, 0, 0, None)
    {
      memory := Some(Sock(sd, userData, 0, 0, None));
    }

    ghost predicate Live()
      reads this
    {
      memory.Some?
    }

    /** What the socket holds. What a freed one held is of no account. */
    ghost function Value(): Sock
      reads this
    {
      if Live() then memory.value else Sock(0, 0, 0, 0, None)
    }

    function Sd(): int
      requires Live()
      reads this
    {
      memory.value.sd
    }

    function Mask(): bv32
      requires Live()
      reads this
    {
      memory.value.mask
    }

    function Bits(): bv32
      requires Live()
      reads this
    {
      memory.value.bits
    }

    function Proc(): Option<nat>
      requires Live()
      reads this
    {
      memory.value.proc
    }

    method SetUserData(data: nat)
      requires Live()
      modifies this
      ensures Live() && Value() == old(Value()).(userData := data)
    {
      memory := Some(memory.value.(userData := data));
    }

    method SetMask(mask: bv32)
      requires Live()
      modifies this
      ensures Live() && Value() == old(Value()).(mask := mask)
    {
      memory := Some(memory.value.(mask := mask));
    }

    method SetBits(bits: bv32)
      requires Live()
      modifies this
      ensures Live() && Value() == old(Value()).(bits := bits)
    {
      memory := Some(memory.value.(bits := bits));
    }

    method SetProc(proc: Option<nat>)
      requires Live()
      modifies this
      ensures Live() && Value() == old(Value()).(proc := proc)
    {
      memory := Some(memory.value.(proc := proc));
    }

    /** memset() and free() */
    method Free()
      requires Live()
      modifies this
      ensures !Live()
    {
      memory := None;
    }

    method MarkShutdown(how: How)
      requires Live()
      modifies this
      ensures Live() && Value() == AfterShutdown(old(Value()), how, true)
    {
      match how {
        case ShutBoth =>
          SetMask(SetLow(Mask(), Both(EvtRead, EvtWrite)));
          SetBits(SetLow(Bits(), S_CONNECT | S_LISTEN));
        case ShutRead =>
          SetMask(SetLow(Mask(), Bit(EvtRead)));
          SetBits(SetLow(Bits(), S_LISTEN));
        case ShutWrite =>
          SetMask(SetLow(Mask(), Bit(EvtWrite)));
          SetBits(SetLow(Bits(), S_CONNECT));
      }
    }

    method MarkClosed()
      requires Live()
      modifies this
      ensures Live() && Value() == AfterClose(old(Value()), true)
    {
      SetBits(SetHigh(Bits(), S_CLOSE));
      SetBits(SetLow(Bits(), S_CONNECT | S_LISTEN));
    }

    method MarkListening()
      requires Live()
      modifies this
      ensures Live() && Value() == AfterListen(old(Value()), true)
    {
      SetMask(SetHigh(Mask(), Bit(EvtRead)));
      SetBits(SetHigh(Bits(), S_LISTEN));
    }

    /** A pending connection becomes readable or writable: decide whether it succeeded. Returns the outcome and the raw
        events that are left to translate. */
    method OnPendingConnIo(events: bv32) returns (outcome: Event, left: bv32)
      requires Live()
      modifies this
      ensures var failed := EvtClose in Decode(events) || EvtError in Decode(events);
        && outcome == (if failed then EvtConnFail else EvtConnect)
        && Decode(left) == Decode(events) - (if failed then {EvtError} else {})
      ensures Live()
      ensures Value() == old(Value()).(mask := SetLow(old(Value().mask), Bit(EvtWrite)),
                                       bits := SetLow(old(Value().bits), S_CONNECT))
    {
      left := events;
      if HasEvent(events, EvtClose) || HasEvent(events, EvtError) {
        LowDrops(left, Bit(EvtError));
        DecodeBit(EvtError);
        left := SetLow(left, Bit(EvtError));
        outcome := EvtConnFail;
      } else {
        outcome := EvtConnect;
      }
      SetMask(SetLow(Mask(), Bit(EvtWrite)));
      SetBits(SetLow(Bits(), S_CONNECT));
    }

    /** The readable branch. */
    method TranslateRead(raw: bv32, rdHup: bool, listening: bool, peerClosed: bool) returns (out: bv32, left: bv32)
      requires Live()
      modifies this
      ensures ReadBranch(Polled(raw, old(Value().mask), old(Value().bits), listening, !rdHup && peerClosed),
                         Decode(out), Decode(left), Value().mask, Value().bits)
      ensures Live() && Value() == old(Value()).(mask := Value().mask, bits := Value().bits)
      ensures OnlyEvents(out)
    {
      hide Bit, SetLow, SetHigh, OnlyEvents, Decode, HasEvent, IsSet;
      DecodeHas(raw, EvtRead);
      DecodeHas(Mask(), EvtRead);
      NothingOnlyEvents();
      DecodeNothing();
      out, left := 0, raw;
      var event := EvtRead;
      if HasEvent(raw, EvtRead) && HasEvent(Mask(), EvtRead) {
        if listening {
          event := EvtAccept;
        } else if IsSet(Bits(), S_CONNECT) {
          event, left := OnPendingConnIo(left);
        } else if !rdHup && peerClosed {
          event := EvtClose;
        }
        HighAdds(out, Bit(event));
        HighKeepsOnlyEvents(out, event);
        DecodeBit(event);
        out := SetHigh(out, Bit(event));
      }
    }

    /** The writable branch. */
    method TranslateWrite(events: bv32) returns (out: bv32, left: bv32)
      requires Live()
      modifies this
      ensures WriteBranch(Decode(events), old(Value().mask), old(Value().bits),
                          Decode(out), Decode(left), Value().mask, Value().bits)
      ensures Live() && Value() == old(Value()).(mask := Value().mask, bits := Value().bits)
      ensures OnlyEvents(out)
    {
      hide Bit, SetLow, SetHigh, OnlyEvents;
      NothingOnlyEvents();
      DecodeNothing();
      out, left := 0, events;
      if HasEvent(events, EvtWrite) && HasEvent(Mask(), EvtWrite) {
        var event := EvtWrite;
        if IsSet(Bits(), S_CONNECT) {
          event, left := OnPendingConnIo(left);
        }
        HighAdds(out, Bit(event));
        HighKeepsOnlyEvents(out, event);
        DecodeBit(event);
        out := SetHigh(out, Bit(event));
      }
    }

    /** A branch that passes an event on when it is wanted. */
    method TranslatePlain(events: bv32, e: Event, sofar: bv32) returns (out: bv32)
      requires Live() && OnlyEvents(sofar)
      ensures Decode(out) == Decode(sofar) + Gate(Decode(events), Decode(Value().mask), e) && OnlyEvents(out)
    {
      hide Bit, SetHigh, OnlyEvents;
      out := sofar;
      if HasEvent(events, e) && HasEvent(Mask(), e) {
        HighAdds(out, Bit(e));
        HighKeepsOnlyEvents(out, e);
        DecodeBit(e);
        out := SetHigh(out, Bit(e));
      }
    }

    /** The events that are passed on as they are. */
    method TranslateRest(events: bv32, sofar: bv32) returns (out: bv32)
      requires Live() && OnlyEvents(sofar)
      ensures OnlyEvents(out)
      ensures var left, wants := Decode(events), Decode(Value().mask);
        Decode(out) == Decode(sofar)
          + Gate(left, wants, EvtOobWrite) + Gate(left, wants, EvtClose)
          + Gate(left, wants, EvtPriority) + Gate(left, wants, EvtError) + Gate(left, wants, EvtInvalid)
    {
      hide Decode, Gate, OnlyEvents;
      out := TranslatePlain(events, EvtOobWrite, sofar);
      out := TranslatePlain(events, EvtClose, out);
      out := TranslatePlain(events, EvtPriority, out);
      out := TranslatePlain(events, EvtError, out);
      out := TranslatePlain(events, EvtInvalid, out);
    }

    /** The first half of _bal_dispatch_events: turns raw events into the word for the callback, one event after the
        other, changing the socket's mask and bits on the way. `drop` says the descriptor is closed or invalid. */
    method TranslateEvents(raw: bv32, rdHup: bool, listening: bool, peerClosed: bool) returns (out: bv32, drop: bool)
      requires Live()
      modifies this
      ensures Translation(Decode(out), Value().mask, Value().bits, drop)
           == Translate(Polled(raw, old(Value().mask), old(Value().bits), listening, !rdHup && peerClosed))
      ensures Live() && Value() == old(Value()).(mask := Value().mask, bits := Value().bits)
      ensures out == 0 <==> Decode(out) == {}
    {
      hide Bit, SetLow, SetHigh, Decode, IsSet, ReadBranch, WriteBranch, Gate, Polled.Delivers, OnlyEvents;
      ghost var i := Polled(raw, Value().mask, Value().bits, listening, !rdHup && peerClosed);
      var events, more;
      out, events := TranslateRead(raw, rdHup, listening, peerClosed);
      ghost var read, left, mask1, bits1 := Decode(out), Decode(events), Value().mask, Value().bits;
      out := TranslatePlain(events, EvtOobRead, out);
      more, events := TranslateWrite(events);
      HighAdds(out, more);
      UnionOnlyEvents(out, more);
      out := SetHigh(out, more);
      ghost var p := Parts(read, left, Decode(mask1), Decode(more), Decode(events), Decode(Value().mask));
      out := TranslateRest(events, out);
      DecodeHas(events, EvtClose);
      DecodeHas(events, EvtInvalid);
      drop := HasEvent(events, EvtClose) || HasEvent(events, EvtInvalid);
      ZeroIsNothing(out);
      PartsState(i, p, mask1, bits1, Value().mask, Value().bits);
      PartsDrop(i, p, mask1, bits1, Value().mask, Value().bits);
      assert Decode(out) == p.All();
      forall e: Event ensures e in p.All() <==> i.Delivers(e) {
        PartsAddUp(i, p, mask1, bits1, Value().mask, Value().bits, e);
      }
    }

    method MarkConnecting()
      requires Live()
      modifies this
      ensures Live() && Value() == AfterConnect(old(Value()), true)
    {
      SetMask(SetHigh(Mask(), Bit(EvtWrite)));
      SetBits(SetHigh(Bits(), S_CONNECT));
    }
  }

  /** A bal_list_node. */
  class Node {
    var key: int
    var val: BalSocket
    var prev: Node?
    var next: Node?
    ghost var live: bool

    constructor (key: int, val: BalSocket)
      ensures live && Pair() == Entry(key, val) && prev == null && next == null
    {
      this.key, this.val, prev, next, live := key, val, null, null, true;
    }

    function Key(): int
      requires live
      reads this
    {
      key
    }

    function Val(): BalSocket
      requires live
      reads this
    {
      val
    }

    function Prev(): Node?
      requires live
      reads this
    {
      prev
    }

    function Next(): Node?
      requires live
      reads this
    {
      next
    }

    ghost function Pair(): Entry<BalSocket>
      reads this
    {
      Entry(key, val)
    }

    method SetPrev(node: Node?)
      requires live
      modifies this`prev
      ensures prev == node
    {
      prev := node;
    }

    method SetNext(node: Node?)
      requires live
      modifies this`next
      ensures next == node
    {
      next := node;
    }

    /** free() */
    method Free()
      requires live
      modifies this`live
      ensures !live
    {
      live := false;
    }
  }

  /** Where the iterator stands after the entry at `at` is removed: on the same entry as before, except that an iterator
      on the removed entry steps back to the one before it, or becomes null when there is none. `n` is the length
      before, and stands for a null iterator; after the removal that is `n - 1`. */
  function CursorAfterRemove(n: nat, at: nat, cursor: nat): (c: nat)
    requires at < n && cursor <= n
    ensures c <= n - 1
  {
    if cursor < at then cursor
    else if cursor > at then cursor - 1
    else if at == 0 then n - 1
    else at - 1
  }

  /** The node at an index, null past either end. */
  function At(nodes: seq<Node>, i: int): Node? {
    if 0 <= i < |nodes| then nodes[i] else null
  }

  /** The nodes are live and distinct, carry the contents, and are linked both ways in order. */
  ghost predicate Chain(nodes: seq<Node>, contents: seq<Entry<BalSocket>>)
    reads nodes
  {
    && |contents| == |nodes|
    && (forall i | 0 <= i < |nodes| :: nodes[i].live && nodes[i].Pair() == contents[i])
    && (forall i, j | 0 <= i < j < |nodes| :: nodes[i] != nodes[j])
    && (forall i {:trigger nodes[i].prev} | 0 <= i < |nodes| :: nodes[i].prev == At(nodes, i - 1))
    && (forall i {:trigger nodes[i].next} | 0 <= i < |nodes| :: nodes[i].next == At(nodes, i + 1))
  }

  /** A chain but for the node at `gap`, which its neighbours skip. */
  ghost predicate ChainExcept(nodes: seq<Node>, contents: seq<Entry<BalSocket>>, gap: nat)
    reads nodes
  {
    && |contents| == |nodes| && gap < |nodes|
    && (forall i | 0 <= i < |nodes| && i != gap :: nodes[i].live && nodes[i].Pair() == contents[i])
    && (forall i, j | 0 <= i < j < |nodes| :: nodes[i] != nodes[j])
    && (forall i {:trigger nodes[i].prev} | 0 <= i < |nodes| && i != gap ::
          nodes[i].prev == At(nodes, if i == gap + 1 then gap - 1 else i - 1))
    && (forall i {:trigger nodes[i].next} | 0 <= i < |nodes| && i != gap ::
          nodes[i].next == At(nodes, if i == gap - 1 then gap + 1 else i + 1))
  }

  function Without<T>(s: seq<T>, at: nat): seq<T>
    requires at < |s|
  {
    s[..at] + s[at + 1..]
  }

  lemma WithoutAt<T>(s: seq<T>, gap: nat, k: nat)
    requires gap < |s| && k < |s| - 1
    ensures Without(s, gap)[k] == s[if k < gap then k else k + 1]
  {
  }

  /** One node of a chain with a gap, seen in the sequence that leaves the gap out. */
  lemma GapNode(nodes: seq<Node>, contents: seq<Entry<BalSocket>>, gap: nat, k: nat)
    requires ChainExcept(nodes, contents, gap) && k < |nodes| - 1
    ensures var rest := Without(nodes, gap);
      && rest[k].live && rest[k].Pair() == Without(contents, gap)[k]
      && rest[k].prev == At(rest, k - 1) && rest[k].next == At(rest, k + 1)
  {
    var i := if k < gap then k else k + 1;
    WithoutAt(nodes, gap, k);
    WithoutAt(contents, gap, k);
    assert nodes[i].live && nodes[i].prev == nodes[i].prev && nodes[i].next == nodes[i].next;
  }

  lemma WithoutDistinct<T>(s: seq<T>, gap: nat)
    requires gap < |s| && forall i, j | 0 <= i < j < |s| :: s[i] != s[j]
    ensures forall i, j | 0 <= i < j < |s| - 1 :: Without(s, gap)[i] != Without(s, gap)[j]
  {
    forall i, j | 0 <= i < j < |s| - 1 ensures Without(s, gap)[i] != Without(s, gap)[j] {
      WithoutAt(s, gap, i);
      WithoutAt(s, gap, j);
    }
  }

  lemma GapCloses(nodes: seq<Node>, contents: seq<Entry<BalSocket>>, gap: nat)
    requires ChainExcept(nodes, contents, gap)
    ensures Chain(Without(nodes, gap), Without(contents, gap))
  {
    var rest := Without(nodes, gap);
    forall k | 0 <= k < |rest|
      ensures rest[k].live && rest[k].Pair() == Without(contents, gap)[k]
      ensures rest[k].prev == At(rest, k - 1) && rest[k].next == At(rest, k + 1)
    {
      GapNode(nodes, contents, gap, k);
    }
    WithoutDistinct(nodes, gap);
  }

  /** A chain whose last node has been pointed at a new node, and the new node back at it, is a longer chain. */
  lemma TailExtends(nodes: seq<Node>, contents: seq<Entry<BalSocket>>, node: Node)
    requires nodes != [] && node !in nodes && node.live && node.next == null && node.prev == nodes[|nodes| - 1]
    requires |contents| == |nodes|
    requires forall i | 0 <= i < |nodes| :: nodes[i].live && nodes[i].Pair() == contents[i]
    requires forall i, j | 0 <= i < j < |nodes| :: nodes[i] != nodes[j]
    requires forall i {:trigger nodes[i].prev} | 0 <= i < |nodes| :: nodes[i].prev == At(nodes, i - 1)
    requires forall i {:trigger nodes[i].next} | 0 <= i < |nodes| ::
               nodes[i].next == if i == |nodes| - 1 then node else At(nodes, i + 1)
    ensures Chain(nodes + [node], contents + [node.Pair()])
  {
    var all := nodes + [node];
    forall i | 0 <= i < |all|
      ensures all[i].live && all[i].Pair() == (contents + [node.Pair()])[i]
      ensures all[i].prev == At(all, i - 1) && all[i].next == At(all, i + 1)
    {
      if i < |nodes| {
        assert nodes[i].live && nodes[i].prev == At(nodes, i - 1);
        assert nodes[i].next == if i == |nodes| - 1 then node else At(nodes, i + 1);
      }
    }
  }

  /** Removal and iteration do not mix well: an iterator that stood elsewhere still yields the entry it stood on, but
      one that stood on the removed entry yields the entry before it a second time, or, at the front, nothing more at
      all. */
  lemma IteratorAfterRemove<V>(reg: seq<Entry<V>>, key: int, cursor: nat)
    requires Has(reg, key) && cursor < |reg|
    ensures var at, rest := IndexOf(reg, key), Registry.Remove(reg, key);
      var c := CursorAfterRemove(|reg|, at, cursor);
      && (cursor != at ==> c < |rest| && rest[c] == reg[cursor])
      && (cursor == at > 0 ==> c < |rest| && rest[c] == reg[at - 1])
      && (cursor == at == 0 ==> c == |rest|)
  {
    var at := IndexOf(reg, key);
    if cursor < at {
      WithoutAt(reg, at, cursor);
    } else if cursor > 0 {
      WithoutAt(reg, at, cursor - 1);
    }
  }

  class BalList {
    var head: Node?
    var iter: Node?
    ghost var nodes: seq<Node>
    ghost var contents: seq<Entry<BalSocket>>
    ghost var cursor: nat  // index of the node `iter` stands on; the length when it is null
    ghost var live: bool

    /** On an empty list the iterator may be anything, even a freed node. */
    ghost predicate Valid()
      reads this, nodes
    {
      && live && Chain(nodes, contents) && head == At(nodes, 0)
      && cursor <= |nodes| && (nodes != [] ==> iter == At(nodes, cursor))
    }

    constructor ()
      ensures Valid() && contents == [] && cursor == 0 && nodes == []
    {
      head, iter, nodes, contents, cursor, live := null, null, [], [], 0, true;
    }

    /** free() */
    method Free()
      requires live
      modifies this`live
      ensures !live
    {
      live := false;
    }

    predicate Empty()
      requires live
      reads this
    {
      head == null
    }

    /** Appends. `memory` says whether the allocation succeeds; when it fails nothing is appended. */
    method Add(key: int, val: BalSocket, memory: bool) returns (ok: bool)
      requires Valid()
      modifies this, nodes
      ensures Valid() && ok == memory
      ensures contents == if memory then old(contents) + [Entry(key, val)] else old(contents)
      ensures cursor == if old(contents) == [] then 0
                        else if old(cursor) == |old(contents)| then |contents|
                        else old(cursor)
      ensures forall n | n in nodes :: n in old(nodes) || fresh(n)
    {
      ok := memory;
      if Empty() {
        if memory {
          var node := new Node(key, val);
          head := node;
          nodes, contents := [node], [Entry(key, val)];
        }
        iter, cursor := head, 0;
      } else {
        var tail := Last();
        if memory {
          var node := new Node(key, val);
          Link(tail, node);
        }
      }
    }

    method Last() returns (node: Node)
      requires Valid() && !Empty()
      ensures nodes != [] && node == nodes[|nodes| - 1]
    {
      node := head;
      ghost var i := 0;
      while node.Next() != null
        invariant 0 <= i < |nodes| && node == nodes[i]
        decreases |nodes| - i
      {
        node, i := node.Next(), i + 1;
      }
    }

    method Link(tail: Node, node: Node)
      requires Valid() && nodes != [] && tail == nodes[|nodes| - 1]
      requires node !in nodes && node.live && node.next == null
      modifies tail`next, node`prev, this`nodes, this`contents, this`cursor
      ensures Valid() && nodes == old(nodes) + [node] && contents == old(contents) + [old(node.Pair())]
      ensures cursor == if old(cursor) == |old(nodes)| then |nodes| else old(cursor)
    {
      tail.SetNext(node);
      node.SetPrev(tail);
      TailExtends(nodes, contents, node);
      cursor := if cursor == |nodes| then |nodes| + 1 else cursor;
      nodes, contents := nodes + [node], contents + [node.Pair()];
    }

    /** Looks a key up, first match. */
    method Lookup(key: int) returns (val: Option<BalSocket>)
      requires Valid()
      ensures val == Find(contents, key)
    {
      val := None;
      var node := head;
      ghost var i := 0;
      while node != null
        invariant 0 <= i <= |nodes| && node == At(nodes, i)
        invariant forall j | 0 <= j < i :: contents[j].key != key
        decreases |nodes| - i
      {
        if node.Key() == key {
          IndexOfIs(contents, key, i);
          return Some(node.Val());
        }
        node, i := node.Next(), i + 1;
      }
    }

    method ResetIterator()
      requires Valid()
      modifies this`iter, this`cursor
      ensures Valid() && cursor == 0
    {
      iter, cursor := head, 0;
    }

    /** The entry under the iterator, if it stands on one, moving the iterator on. */
    method Iterate() returns (item: Option<Entry<BalSocket>>)
      requires Valid()
      modifies this`iter, this`cursor
      ensures Valid()
      ensures if old(cursor) < |contents| then item == Some(contents[old(cursor)]) && cursor == old(cursor) + 1
              else item == None && cursor == old(cursor)
    {
      item := None;
      if !Empty() && iter != null {
        item := Some(Entry(iter.Key(), iter.Val()));
        iter, cursor := iter.Next(), cursor + 1;
      }
    }

    method Count() returns (count: nat)
      requires Valid()
      modifies this`iter, this`cursor
      ensures Valid() && count == |contents|
    {
      count := 0;
      if !Empty() {
        ResetIterator();
        var item := Iterate();
        while item.Some?
          invariant Valid() && count <= |contents|
          invariant if item.Some? then count < |contents| && cursor == count + 1 else count == |contents|
          decreases |contents| - count
        {
          count := count + 1;
          item := Iterate();
        }
      }
    }

    /** Unlinks a node from its neighbours and frees it. */
    static method DestroyNode(node: Node)
      requires node.live
      requires node.prev != null ==> node.prev.live && node.prev != node
      requires node.next != null ==> node.next.live && node.next != node
      modifies node`live
      modifies (if node.prev != null then {node.prev} else {})`next
      modifies (if node.next != null then {node.next} else {})`prev
      ensures !node.live
      ensures node.prev != null ==> node.prev.next == node.next
      ensures node.next != null ==> node.next.prev == node.prev
    {
      if node.Prev() != null {
        node.Prev().SetNext(node.Next());
      }
      if node.Next() != null {
        node.Next().SetPrev(node.Prev());
      }
      node.Free();
    }

    /** Removes the first entry for the key and frees its node. */
    method Remove(key: int) returns (val: Option<BalSocket>)
      requires Valid()
      modifies this, nodes
      ensures Valid()
      ensures val == Find(old(contents), key) && contents == Registry.Remove(old(contents), key)
      ensures cursor == if val == None then old(cursor)
                        else CursorAfterRemove(|old(contents)|, IndexOf(old(contents), key), old(cursor))
      ensures forall n | n in old(nodes) :: n in nodes || !n.live
      ensures forall n | n in nodes :: n in old(nodes)
    {
      val := None;
      var node := head;
      ghost var i := 0;
      while node != null
        invariant 0 <= i <= |nodes| && node == At(nodes, i)
        invariant forall j | 0 <= j < i :: contents[j].key != key
        decreases |nodes| - i
      {
        if node.Key() == key {
          IndexOfIs(contents, key, i);
          val := Some(node.Val());
          Unlink(node, i);
          return;
        }
        node, i := node.Next(), i + 1;
      }
    }

    /** Takes a node out of a chain and frees it. */
    static method Detach(node: Node, ghost nodes: seq<Node>, ghost contents: seq<Entry<BalSocket>>, ghost at: nat)
      requires Chain(nodes, contents) && at < |nodes| && node == nodes[at]
      modifies nodes
      ensures ChainExcept(nodes, contents, at) && !node.live
    {
      DestroyNode(node);
    }

    lemma NodesDistinct(at: nat)
      requires Valid() && at < |nodes|
      ensures nodes[at] == head <==> at == 0
      ensures nodes[at] == iter <==> at == cursor
    {
    }

    /** Moves head and iterator off a node that is about to go. */
    method StepOff(node: Node, ghost at: nat)
      requires Valid() && at < |nodes| && node == nodes[at]
      modifies this`head, this`iter, this`cursor
      ensures head == At(Without(nodes, at), 0)
      ensures cursor == CursorAfterRemove(|nodes|, at, old(cursor))
      ensures |nodes| > 1 ==> iter == At(Without(nodes, at), cursor)
    {
      NodesDistinct(at);
      assert node.live && node.next == At(nodes, at + 1) && node.prev == At(nodes, at - 1);
      ghost var rest := Without(nodes, at);
      assert |nodes| > 1 ==> At(rest, 0) == At(nodes, if at == 0 then 1 else 0);
      assert |nodes| == 1 ==> At(rest, 0) == null && At(nodes, 1) == null;
      if node == head {
        head := node.Next();
      }
      if node == iter {
        iter := iter.Prev();
      }
      cursor := CursorAfterRemove(|nodes|, at, cursor);
    }

    method Unlink(node: Node, ghost at: nat)
      requires Valid() && at < |nodes| && node == nodes[at]
      modifies this, nodes
      ensures Valid() && !node.live
      ensures nodes == Without(old(nodes), at) && contents == Without(old(contents), at)
      ensures cursor == CursorAfterRemove(|old(nodes)|, at, old(cursor))
    {
      StepOff(node, at);
      Detach(node, nodes, contents, at);
      GapCloses(nodes, contents, at);
      nodes, contents := Without(nodes, at), Without(contents, at);
    }

    /** One round of freeing everything. */
    static method FreeFirst(node: Node, ghost nodes: seq<Node>, ghost contents: seq<Entry<BalSocket>>)
      returns (next: Node?)
      requires Chain(nodes, contents) && nodes != [] && node == nodes[0]
      modifies nodes
      ensures Chain(nodes[1..], contents[1..]) && next == At(nodes, 1) && !node.live
    {
      next := node.Next();
      Detach(node, nodes, contents, 0);
      GapCloses(nodes, contents, 0);
      assert Without(nodes, 0) == nodes[1..] && Without(contents, 0) == contents[1..];
    }

    /** Frees every node. The iterator is left where it was, standing on freed memory. */
    method RemoveAll() returns (ok: bool)
      requires Valid()
      modifies this, nodes
      ensures Valid() && contents == [] && nodes == []
      ensures ok == (old(contents) != [])
      ensures forall n | n in old(nodes) :: !n.live
      ensures iter == old(iter)
    {
      ok := !Empty();
      if ok {
        var node := head;
        ghost var i := 0;
        while node != null
          invariant 0 <= i <= |nodes| == |contents| && node == At(nodes, i) && Chain(nodes[i..], contents[i..])
          invariant forall k | 0 <= k < i :: !nodes[k].live
          modifies nodes
          decreases |nodes| - i
        {
          var next := FreeFirst(node, nodes[i..], contents[i..]);
          assert nodes[i..][1..] == nodes[i + 1..] && contents[i..][1..] == contents[i + 1..];
          node, i := next, i + 1;
        }
        head := null;
      }
      nodes, contents, cursor := [], [], 0;
    }
  }

  /** Frees a list and all its nodes, and clears the pointer to it. */
  method DestroyList(lst: BalList?) returns (ok: bool, cleared: BalList?)
    requires lst != null ==> lst.Valid()
    modifies lst, if lst != null then lst.nodes else []
    ensures ok == (lst != null) && cleared == null
    ensures lst != null ==> !lst.live && forall n | n in old(lst.nodes) :: !n.live
  {
    ok, cleared := lst != null, null;
    if ok {
      if !lst.Empty() {
        ok := lst.RemoveAll();
      }
      lst.Free();
    }
  }
}
