/** The library itself: API functions and the event thread over the heap list and heap sockets, with the recursive
    registry mutex taken and released where the source does. Each method is proved to be the step, or run of steps,
    of the same name in World and Machine. */
module Engine {
  import opened Events
  import opened Registry
  import opened World
  import opened Machine
  import opened SocketList
  import opened AddressList

  /** The answer to the k-th connect() call of a series. */
  predicate Accepts(answers: seq<bool>, k: nat) {
    k < |answers| && answers[k]
  }

  class RecursiveMutex {
    var owner: Option<nat>
    var depth: nat

    constructor ()
      ensures Valid() && owner == None
    {
      owner, depth := None, 0;
    }

    ghost predicate Valid()
      reads this
    {
      owner == None <==> depth == 0
    }

    /** Locking would not block. */
    predicate Available(t: nat)
      reads this
    {
      owner == None || owner == Some(t)
    }

    method Lock(t: nat)
      requires Valid() && Available(t)
      modifies this
      ensures Valid() && owner == Some(t) && depth == old(depth) + 1
    {
      owner, depth := Some(t), depth + 1;
    }

    method Unlock(t: nat)
      requires Valid() && owner == Some(t)
      modifies this
      ensures Valid() && depth == old(depth) - 1 && owner == if old(depth) == 1 then None else Some(t)
    {
      depth := depth - 1;
      if depth == 0 {
        owner := None;
      }
    }
  }

  class Library {
    const list: BalList
    const mutex: RecursiveMutex
    const rdHup: bool
    var init: bool
    var die: bool
    var sockets: set<BalSocket>  // the live sockets

    constructor (rdHup: bool)
      ensures Valid() && mutex.owner == None && fresh(list) && fresh(mutex) && fresh(list.nodes)
      ensures Abs() == World(map[], [], true, false)
    {
      list := new BalList();
      mutex := new RecursiveMutex();
      this.rdHup, init, die, sockets := rdHup, true, false, {};
    }

    ghost predicate Valid()
      reads this, sockets, list, list.nodes, mutex
    {
      list.Valid() && mutex.Valid() && forall s | s in sockets :: s.Live()
    }

    /** The heap the sockets make up. */
    ghost function Heap(): map<BalSocket, Sock>
      reads this, sockets
    {
      map s | s in sockets :: s.Value()
    }

    ghost function Abs(): World<BalSocket>
      reads this, sockets, list
    {
      World(Heap(), list.contents, init, die)
    }

    /** Everything the library may change. */
    ghost function Repr(): set<object>
      reads this, list
    {
      {this, list, mutex} + sockets + set n | n in list.nodes
    }

    lemma InHeap(s: BalSocket)
      requires s in sockets
      ensures s in Heap() && Heap()[s] == s.Value()
      ensures s in Abs().heap && Abs().heap[s] == s.Value()
    {
    }

    /** Changing one live socket changes the heap at that socket only. */
    twostate lemma OneSocketChanged(s: BalSocket)
      requires s in sockets && sockets == old(sockets)
      requires forall q | q in sockets && q != s :: q.Value() == old(q.Value())
      ensures Heap() == old(Heap())[s := s.Value()]
    {
    }

    /** What a call does when all it touches is one socket. */
    twostate lemma OneSocketTouched(s: BalSocket, new op: Op<BalSocket>)
      requires s in sockets && sockets == old(sockets) && init == old(init) && die == old(die)
      requires list.contents == old(list.contents)
      requires Touches(op)
      requires op.p == s
      requires s.Value() == Touched(old(s.Value()), op)
      requires forall q | q in sockets && q != s :: q.Value() == old(q.Value())
      ensures Abs() == Apply(old(Abs()), op)
    {
      hide Touched;
      OneSocketChanged(s);
    }

    twostate lemma NoSocketChanged()
      requires sockets == old(sockets) && forall q | q in sockets :: q.Value() == old(q.Value())
      ensures Heap() == old(Heap())
    {
    }

    /** The mask-zero branch of bal_async_poll, under the mutex. */
    method Deregister(t: nat, s: BalSocket) returns (status: Status)
      requires Valid() && mutex.owner == Some(t) && s in sockets
      modifies list, list.nodes
      ensures Valid() && list.contents == Remove(old(list.contents), s.Value().sd)
      ensures forall n | n in list.nodes :: n in old(list.nodes)
      ensures status == if Has(old(list.contents), s.Value().sd) then Ok else NotRegistered
    {
      var removed := list.Remove(s.Sd());
      status := if removed.Some? then Ok else NotRegistered;
    }

    /** The other branch: update the socket if its descriptor is registered, else register it. */
    method Register(t: nat, s: BalSocket, proc: Option<nat>, mask: bv32, ioMode: bool, memory: bool)
      returns (status: Status)
      requires Valid() && mutex.owner == Some(t) && s in sockets
      modifies list, list.nodes, s
      ensures Valid()
      ensures forall n | n in list.nodes :: n in old(list.nodes) || fresh(n)
      ensures status == if Has(old(list.contents), s.Value().sd) then Ok
                        else if !ioMode then SystemError
                        else if !memory then OutOfMemory
                        else Ok
      ensures s.Value() == if status == SystemError then old(s.Value()) else old(s.Value()).(mask := mask, proc := proc)
      ensures list.contents == if status == Ok && !Has(old(list.contents), s.Value().sd)
                               then old(list.contents) + [Entry(s.Value().sd, s)] else old(list.contents)
    {
      hide BalList.Valid;
      var found := list.Lookup(s.Sd());
      if found.Some? {
        s.SetMask(mask);
        s.SetProc(proc);
        status := Ok;
      } else if ioMode {
        s.SetMask(mask);
        s.SetProc(proc);
        var added := list.Add(s.Sd(), s, memory);
        status := if added then Ok else OutOfMemory;
      } else {
        status := SystemError;
      }
    }

    /** What bal_async_poll does between taking and releasing the mutex. The flags do not matter here. */
    method AsyncPollLocked(t: nat, s: BalSocket, proc: Option<nat>, mask: bv32, ioMode: bool, memory: bool)
      returns (status: Status)
      requires Valid() && s in sockets && mutex.owner == Some(t)
      requires GoodArguments(s.Value(), proc, mask)
      modifies list, list.nodes, s
      ensures Valid()
      ensures forall n | n in list.nodes :: n in old(list.nodes) || fresh(n)
      ensures var op := Op.PollSection(s, proc, mask, ioMode, memory);
        status == SectionStatus(old(Abs()), op) && Abs() == ApplySection(old(Abs()), op)
    {
      hide BalList.Valid, IndexOf;
      if mask == 0 {
        status := Deregister(t, s);
        NoSocketChanged();
      } else {
        status := Register(t, s, proc, mask, ioMode, memory);
        OneSocketChanged(s);
        assert status == SystemError ==> Heap() == old(Heap());
      }
    }

    /** The rest of bal_async_poll, when the tests were passed at some earlier time. */
    method PollSection(t: nat, s: BalSocket, proc: Option<nat>, mask: bv32, ioMode: bool, memory: bool)
      returns (status: Status)
      requires Valid() && s in sockets && mutex.Available(t) && GoodArguments(s.Value(), proc, mask)
      modifies list, list.nodes, mutex, s
      ensures Valid() && mutex.owner == old(mutex.owner) && mutex.depth == old(mutex.depth)
      ensures forall n | n in list.nodes :: n in old(list.nodes) || fresh(n)
      ensures var op := Op.PollSection(s, proc, mask, ioMode, memory);
        status == SectionStatus(old(Abs()), op) && Abs() == ApplySection(old(Abs()), op)
    {
      hide BalList.Valid, SectionStatus, ApplySection, Heap;
      mutex.Lock(t);
      status := AsyncPollLocked(t, s, proc, mask, ioMode, memory);
      mutex.Unlock(t);
    }

    /** bal_async_poll without a pause between the tests and the section. */
    method AsyncPoll(t: nat, s: BalSocket, proc: Option<nat>, mask: bv32, ioMode: bool, memory: bool)
      returns (status: Status)
      requires Valid() && s in sockets && mutex.Available(t)
      modifies list, list.nodes, mutex, s
      ensures Valid() && mutex.owner == old(mutex.owner) && mutex.depth == old(mutex.depth)
      ensures forall n | n in list.nodes :: n in old(list.nodes) || fresh(n)
      ensures var op := Op.AsyncPoll(s, proc, mask, ioMode, memory);
        status == AsyncPollStatus(old(Abs()), op) && Abs() == ApplyAsyncPoll(old(Abs()), op)
    {
      hide BalList.Valid, Has, Remove, Heap;
      InHeap(s);
      if !init || die {
        return NotInitialized;
      }
      if s.Sd() == -1 {
        return BadSocket;
      }
      if proc == None && mask != 0 {
        return InvalidArgument;
      }
      status := PollSection(t, s, proc, mask, ioMode, memory);
    }

    /** The socket leaves the live ones and its memory is given back. */
    method Free(s: BalSocket)
      requires s in sockets && s.Live()
      modifies this`sockets, s
      ensures sockets == old(sockets) - {s} && Heap() == old(Heap()) - {s} && !s.Live()
    {
      sockets := sockets - {s};
      s.Free();
    }

    /** What bal_destroy does between taking and releasing the mutex. */
    method DestroyLocked(t: nat, s: BalSocket)
      requires Valid() && s in sockets && mutex.owner == Some(t)
      modifies this`sockets, list, list.nodes, s
      ensures Valid() && sockets == old(sockets) - {s} && !s.Live()
      ensures forall n | n in list.nodes :: n in old(list.nodes)
      ensures Abs() == ApplyDestroy(old(Abs()), s)
    {
      if init {
        var status := Deregister(t, s);
      }
      NoSocketChanged();
      Free(s);
    }

    method Destroy(t: nat, s: BalSocket)
      requires Valid() && s in sockets && mutex.Available(t)
      modifies this`sockets, list, list.nodes, mutex, s
      ensures Valid() && mutex.owner == old(mutex.owner) && mutex.depth == old(mutex.depth)
      ensures forall n | n in list.nodes :: n in old(list.nodes)
      ensures sockets == old(sockets) - {s} && !s.Live()
      ensures Abs() == ApplyDestroy(old(Abs()), s)
    {
      hide BalList.Valid;
      mutex.Lock(t);
      DestroyLocked(t, s);
      mutex.Unlock(t);
    }

    method CloseDescriptor(s: BalSocket, success: bool) returns (ok: bool)
      requires Valid() && s in sockets
      modifies s
      ensures ok == (success && old(s.Value().sd) != -1)
      ensures Valid() && Abs() == Apply(old(Abs()), Op.CloseDescriptor(s, success))
    {
      hide BalList.Valid;
      ok := false;
      if s.Sd() != -1 && success {
        s.MarkClosed();
        ok := true;
      }
      OneSocketTouched(s, Op.CloseDescriptor(s, success));
    }

    method Shutdown(s: BalSocket, how: How, success: bool) returns (ok: bool)
      requires Valid() && s in sockets
      modifies s
      ensures ok == (success && old(s.Value().sd) != -1)
      ensures Valid() && Abs() == Apply(old(Abs()), Op.Shutdown(s, how, success))
    {
      hide BalList.Valid;
      ok := false;
      if s.Sd() != -1 && success {
        s.MarkShutdown(how);
        ok := true;
      }
      OneSocketTouched(s, Op.Shutdown(s, how, success));
    }

    method Listen(s: BalSocket, success: bool) returns (ok: bool)
      requires Valid() && s in sockets
      modifies s
      ensures ok == (success && old(s.Value().sd) != -1)
      ensures Valid() && Abs() == Apply(old(Abs()), Op.Listen(s, success))
    {
      hide BalList.Valid;
      ok := false;
      if s.Sd() != -1 && success {
        s.MarkListening();
        ok := true;
      }
      OneSocketTouched(s, Op.Listen(s, success));
    }

    method AddToMask(s: BalSocket, added: bv32)
      requires Valid() && s in sockets
      modifies s
      ensures Valid() && Abs() == Apply(old(Abs()), Op.AddToMask(s, added))
    {
      hide BalList.Valid;
      s.SetMask(SetHigh(s.Mask(), added));
      OneSocketTouched(s, Op.AddToMask(s, added));
    }

    method RemoveFromMask(s: BalSocket, cleared: bv32)
      requires Valid() && s in sockets
      modifies s
      ensures Valid() && Abs() == Apply(old(Abs()), Op.RemoveFromMask(s, cleared))
    {
      hide BalList.Valid;
      s.SetMask(SetLow(s.Mask(), cleared));
      OneSocketTouched(s, Op.RemoveFromMask(s, cleared));
    }

    method SetUserData(s: BalSocket, data: nat)
      requires Valid() && s in sockets
      modifies s
      ensures Valid() && Abs() == Apply(old(Abs()), Op.SetUserData(s, data))
    {
      hide BalList.Valid;
      s.SetUserData(data);
      OneSocketTouched(s, Op.SetUserData(s, data));
    }

    /** bal_close: the socket is freed on request, even when closing its descriptor failed. */
    method Close(t: nat, s: BalSocket, success: bool, destroy: bool) returns (ok: bool)
      requires Valid() && s in sockets && mutex.Available(t)
      modifies this`sockets, list, list.nodes, mutex, s
      ensures Valid() && mutex.owner == old(mutex.owner) && mutex.depth == old(mutex.depth)
      ensures forall n | n in list.nodes :: n in old(list.nodes)
      ensures ok == (success && old(s.Value().sd) != -1)
      ensures sockets == if destroy && old(s.Value().sd) != -1 then old(sockets) - {s} else old(sockets)
      ensures s.Live() <==> s in sockets
      ensures var closed := Apply(old(Abs()), Op.CloseDescriptor(s, success));
        Abs() == if destroy && old(s.Value().sd) != -1 then Apply(closed, Op.Destroy(s)) else closed
    {
      hide BalList.Valid;
      var open := s.Sd() != -1;
      ok := CloseDescriptor(s, success);
      if open && destroy {
        Destroy(t, s);
      }
    }

    /** Tries the addresses in order until connect() accepts one. `answers` are the answers of connect(); `tried`
        records the addresses it was given. */
    static method TryAddresses(al: AddrList, answers: seq<bool>) returns (ok: bool, ghost tried: seq<Address>)
      requires al.Valid()
      modifies al`iter, al`cursor
      ensures al.Valid() && tried <= al.contents
      ensures forall k | 0 <= k < |tried| - 1 :: !Accepts(answers, k)
      ensures if ok then tried != [] && Accepts(answers, |tried| - 1)
              else tried == al.contents && forall k | 0 <= k < |tried| :: !Accepts(answers, k)
    {
      ok, tried := false, [];
      al.Reset();
      var addr := al.Enumerate();
      var calls := 0;
      while addr.Some?
        invariant al.Valid() && calls == |tried| <= |al.contents|
        invariant tried == al.contents[..calls] && forall k | 0 <= k < calls :: !Accepts(answers, k)
        invariant if addr.Some? then calls < |al.contents| && addr.value == al.contents[calls] && al.cursor == calls + 1
                  else calls == |al.contents|
        decreases |al.contents| - calls
      {
        tried := tried + [addr.value];
        if Accepts(answers, calls) {
          return true, tried;
        }
        calls := calls + 1;
        addr := al.Enumerate();
      }
    }

    /** bal_connect_addrlist */
    method ConnectAddrList(s: BalSocket, al: AddrList, answers: seq<bool>) returns (ok: bool, ghost tried: seq<Address>)
      requires Valid() && s in sockets && al.Valid()
      modifies s, al`iter, al`cursor
      ensures al.Valid() && tried <= al.contents
      ensures forall k | 0 <= k < |tried| - 1 :: !Accepts(answers, k)
      ensures ok ==> tried != [] && Accepts(answers, |tried| - 1)
      ensures !ok ==> forall k | 0 <= k < |tried| :: !Accepts(answers, k)
      ensures !ok ==> tried == if old(s.Value().sd) == -1 then [] else al.contents
      ensures ok ==> old(s.Value().sd) != -1
      ensures Valid() && Abs() == Apply(old(Abs()), Op.Connect(s, ok))
    {
      hide BalList.Valid, AddrList.Valid, Apply, Accepts;
      ok, tried := false, [];
      if s.Sd() != -1 {
        ok, tried := TryAddresses(al, answers);
        if ok {
          s.MarkConnecting();
        }
      }
      OneSocketTouched(s, Op.Connect(s, ok));
    }

    /** bal_connect: `infos` is what getaddrinfo() found, nothing when it failed; `made` are the address nodes allocated
        on the way. They are all freed again, except when memory runs out after the first: then every one of them is
        leaked. */
    method ConnectHost(s: BalSocket, infos: seq<Address>, budget: nat, answers: seq<bool>)
      returns (ok: bool, ghost made: seq<AddressNode>)
      requires Valid() && s in sockets
      modifies s
      ensures ok <==> old(s.Value().sd) != -1 && |infos| <= budget && exists k | 0 <= k < |infos| :: Accepts(answers, k)
      ensures Valid() && Abs() == Apply(old(Abs()), Op.Connect(s, ok))
      ensures fresh(made)
      ensures |made| == if old(s.Value().sd) == -1 then 0 else if |infos| <= budget then |infos| else budget
      ensures (forall n | n in made :: !n.live) <==> old(s.Value().sd) == -1 || |infos| <= budget || budget == 0
    {
      hide BalList.Valid, Apply, Accepts, Abs;
      ok := false;
      var al := new AddrList();
      var built := false;
      if s.Sd() != -1 {
        built := al.Build(infos, budget);
      }
      made := al.nodes;
      if built {
        ghost var tried;
        ok, tried := ConnectAddrList(s, al, answers);
        al.FreeAll();
      } else {
        OneSocketTouched(s, Op.Connect(s, false));
        assert made != [] ==> made[0] in made && made[0].live;
      }
    }

    // ----- What the event thread does to the list, with the mutex held -----

    method Count(t: nat) returns (count: nat)
      requires Valid() && mutex.owner == Some(t)
      modifies list`iter, list`cursor
      ensures Valid() && count == |list.contents|
    {
      count := list.Count();
    }

    method Lookup(t: nat, fd: int) returns (found: Option<BalSocket>)
      requires Valid() && mutex.owner == Some(t)
      ensures found == Find(Abs().reg, fd)
    {
      found := list.Lookup(fd);
    }

    /** Takes the descriptor off the list if it is to be dropped. */
    method Drop(t: nat, fd: int, drop: bool)
      requires Valid() && mutex.owner == Some(t)
      modifies list, list.nodes
      ensures Valid() && Abs() == Dropped(old(Abs()), fd, drop)
      ensures forall n | n in list.nodes :: n in old(list.nodes)
    {
      if drop {
        var d := list.Remove(fd);
      }
      NoSocketChanged();
    }

    /** The slot of poll()'s array for one entry of the list. */
    function Slot(item: Entry<BalSocket>): PollFd
      requires item.val.Live()
      reads item.val
    {
      PollFd(item.key, MaskToPollFlags(rdHup, item.val.Mask()))
    }

    /** Fills the array for poll() from the list; every slot is written, none out of bounds. */
    method FillFrom(t: nat, fds: array<PollFd>)
      requires Valid() && mutex.owner == Some(t) && fds.Length == |list.contents|
      requires forall e | e in list.contents :: e.val in sockets
      modifies list`iter, list`cursor, fds
      ensures Valid()
      ensures forall i | 0 <= i < fds.Length :: fds[i] == Slot(list.contents[i])
    {
      hide BalList.Valid, MaskToPollFlags;
      var offset := 0;
      list.ResetIterator();
      var item := list.Iterate();
      while item.Some?
        invariant Valid() && offset <= |list.contents|
        invariant if item.Some? then offset < |list.contents| && item.value == list.contents[offset]
                                  && list.cursor == offset + 1
                  else offset == |list.contents|
        invariant forall i | 0 <= i < offset :: fds[i] == Slot(list.contents[i])
        decreases |list.contents| - offset
      {
        assert item.value.val in sockets;
        fds[offset] := Slot(item.value);
        offset := offset + 1;
        item := list.Iterate();
      }
    }

    method Fill(t: nat, fds: array<PollFd>)
      requires Valid() && mutex.owner == Some(t) && fds.Length == |list.contents| && AllLive(Abs())
      modifies list`iter, list`cursor, fds
      ensures Valid() && Abs() == old(Abs()) && fds[..] == PollArray(rdHup, Abs())
    {
      hide BalList.Valid, MaskToPollFlags;
      assert forall e | e in list.contents :: e in Abs().reg;
      FillFrom(t, fds);
      NoSocketChanged();
    }

    /** `sd` is what socket() returned. */
    method Create(sd: int, userData: nat, memory: bool) returns (s: BalSocket?)
      requires Valid() && sd >= -1
      modifies this`sockets
      ensures (s == null <==> !memory || sd == -1) && (s != null ==> fresh(s) && s !in old(Abs()).heap)
      ensures sockets == if s == null then old(sockets) else old(sockets) + {s}
      ensures Valid() && Abs() == if s == null then old(Abs()) else Apply(old(Abs()), Op.Create(s, sd, userData))
    {
      s := null;
      if memory && sd != -1 {
        var created := new BalSocket(sd, userData);
        s := created;
        sockets := sockets + {created};
        assert Heap() == old(Heap())[created := created.Value()];
      }
    }

    /** `sd` is what accept() returned for the listener. */
    method Accept(listener: BalSocket, sd: int, memory: bool) returns (s: BalSocket?)
      requires Valid() && listener in sockets
      modifies this`sockets
      ensures s == null <==> !memory || sd <= 0 || old(listener.Value().sd) == -1
      ensures s != null ==> fresh(s) && s !in old(Abs()).heap
      ensures sockets == if s == null then old(sockets) else old(sockets) + {s}
      ensures Valid() && Abs() == if s == null then old(Abs()) else Apply(old(Abs()), Op.Accept(listener, s, sd))
    {
      s := null;
      if listener.Sd() != -1 && memory && sd > 0 {
        var accepted := new BalSocket(sd, 0);
        s := accepted;
        sockets := sockets + {accepted};
        assert Heap() == old(Heap())[accepted := accepted.Value()];
      }
    }
  }
}
