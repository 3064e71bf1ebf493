/** bal_init and bal_cleanup as code. Every statement that matters to others is an event of Lifecycle, and the record of
    these events is a history from the initial state, so what holds of all histories holds here. */
module Startup {
  import opened Registry
  import opened World
  import opened Machine
  import opened SocketList
  import opened Engine
  import opened Lifecycle
  import opened Teardown

  /** With async I/O down, calls change neither the event thread nor what is registered, late sections aside. */
  lemma CallKeepsRegistry<P>(s: State<P>, l: Label<P>)
    requires Enabled(s, l) && (l.User? || l.Handler?) && !IsSection(l) && !s.w.init
    ensures Step(s, l).pc == s.pc && Step(s, l).w.reg == s.w.reg
  {
    DownKeepsRegistry(s.w, l.op);
  }

  lemma ControlFlags<P>(s: State<P>, l: Label<P>)
    requires l.OfControl()
    ensures ControlStep(s, l).w.init == if l.StoreInit? then l.value else s.w.init
    ensures ControlStep(s, l).w.die == if l.StoreDie? then l.value else s.w.die
  {
  }

  /** The flags that a statement stores in the engine are those the thread then sees. */
  lemma FlagsAreSeen<P>(y: Sys<P>, t: nat, success: bool)
    ensures var c, v := ControlOf(y, t, success), Seen(SightOf(y, t), t, success);
      var core := if c.Some? then ControlStep(y.core, c.value) else y.core;
      core.w.init == v.init && core.w.die == v.die
  {
    hide ControlStep;
    if ControlOf(y, t, success).Some? {
      ControlFlags(y.core, ControlOf(y, t, success).value);
    }
  }

  lemma GoIsSeen<P>(y: Sys<P>, t: nat, success: bool)
    ensures SightOf(GoStep(y, t, success), t) == Seen(SightOf(y, t), t, success)
  {
    hide ControlOf, ControlStep, Seen;
    FlagsAreSeen(y, t, success);
  }

  /** A thread's own statements touch the registry only to start a new list or to give the old one up. */
  lemma GoEntries<P>(y: Sys<P>, t: nat, success: bool)
    ensures GoStep(y, t, success).core.w.reg
         == if y.Where(t).InitList? || y.Where(t).CleanupFree? then [] else y.core.w.reg
  {
  }

  lemma LoweringKeepsClean<P>(y: Sys<P>, t: nat)
    requires Clean(y.core) && y.Where(t) == CleanupFlag
    ensures Clean(GoStep(y, t, true).core)
  {
  }

  /** A step of the engine is out of sight, as far as flags, list and mutex go. */
  lemma CoreIsUnseen<P>(y: Sys<P>, l: Label<P>, t: nat)
    requires Possible(y, Core(l))
    ensures SightOf(Next(y, Core(l)), t) == SightOf(y, t)
  {
    hide Step, Enabled;
    CoreKeepsFlags(y.core, l);
  }

  lemma ThreadStepEffects<P>(s: State<P>, l: Label<P>)
    requires Enabled(s, l) && l.OfThread() && s.w.die && Clean(s)
    ensures var s' := Step(s, l);
      && Clean(s') && s'.pc.WellFormed() && !s'.pc.NoThread? && Remaining(s') < Remaining(s)
      && s'.w.reg == if Takes(s, l).Some? then Registry.Remove(s.w.reg, Takes(s, l).value) else s.w.reg
  {
    hide Clean, Takes, Step;
    ThreadTakes(s, l);
    CoreKeepsFlags(s, l);
    StepSpendsBudget(s, l);
    StepKeepsClean(s, l);
  }

  /** What a step of the engine does to the list. */
  datatype Change = Keep | Append(e: Entry<BalSocket>) | Delete(key: int)

  function Changed(reg: seq<Entry<BalSocket>>, c: Change): seq<Entry<BalSocket>> {
    match c
    case Keep => reg
    case Append(e) => reg + [e]
    case Delete(key) => Registry.Remove(reg, key)
  }

  function ChangeIn(s: State<BalSocket>, l: Label<BalSocket>): Change
    requires Enabled(s, l) && !l.OfControl()
  {
    if l.OfThread() then (if Takes(s, l).Some? then Delete(Takes(s, l).value) else Keep)
    else if Step(s, l).w.reg == s.w.reg then Keep
    else if l.op.Destroy? || l.op.mask == 0 then Delete(s.w.heap[l.op.p].sd)
    else Append(Entry(s.w.heap[l.op.p].sd, l.op.p))
  }

  lemma ChangeIsStep(s: State<BalSocket>, l: Label<BalSocket>)
    requires Enabled(s, l) && !l.OfControl()
    ensures Step(s, l).w.reg == Changed(s.w.reg, ChangeIn(s, l))
  {
    hide Takes, Registry.Remove, ServeStep, Touched;
    if l.OfThread() {
      ThreadTakes(s, l);
    }
  }

  lemma OneNodeEach(list: BalList)
    requires list.Valid()
    ensures |list.nodes| == |list.contents|
  {
  }

  /** The process-wide state of the library. */
  class Process {
    var magic: bool
    var init: bool
    var die: bool
    var list: BalList?
    const mutex: RecursiveMutex
    ghost const rdHup: bool
    ghost var past: seq<Lifecycle.Event<BalSocket>>
    var sys: Sys<BalSocket>

    /** The fields show what thread `t` sees of the state that the events so far lead to, and the list holds the entries
        of its registry. */
    ghost predicate Valid(t: nat)
      reads this, mutex, list, if list != null then list.nodes else []
    {
      && mutex.Valid() && mutex.owner == View(t).mutex && mutex.depth <= 1
      && magic == View(t).magic && init == View(t).init && die == View(t).die
      && (list != null <==> View(t).list) && Listed()
      && Recorded()
    }

    /** The list holds what is registered, in order. */
    ghost predicate Listed()
      reads this`list, this`sys, list, if list != null then list.nodes else []
    {
      (list != null ==> list.Valid()) && Entries() == if list != null then list.contents else []
    }

    ghost function Entries(): seq<Entry<BalSocket>>
      reads this`sys
    {
      sys.core.w.reg
    }

    function View(t: nat): Sight
      reads this`sys
    {
      SightOf(sys, t)
    }

    /** The record is a history that leads to `sys`. */
    ghost predicate Recorded()
      reads this`past, this`sys
    {
      Inv(sys) && History(Initial(rdHup, true), past) && After(Initial(rdHup, true), past) == sys
    }

    lemma IsQuiet()
      requires Recorded()
      ensures sys.quiet
    {
      hide Inv;
      QuietForever(Initial<BalSocket>(rdHup, true), past);
    }

    method Advance(e: Lifecycle.Event<BalSocket>)
      requires Recorded() && Possible(sys, e)
      modifies this`past, this`sys
      ensures Recorded() && past == old(past) + [e] && sys == Next(old(sys), e)
    {
      hide Inv, Possible, Next;
      NextKeepsInv(sys, e);
      OneMoreEvent(Initial(rdHup, true), past, e);
      past, sys := past + [e], Next(sys, e);
    }

    /** The next statement of a thread inside bal_init or bal_cleanup. */
    method Proceed(t: nat, success: bool)
      requires Recorded() && Possible(sys, Go(t, success))
      modifies this`past, this`sys
      ensures Recorded() && old(past) <= past && View(t) == Seen(old(View(t)), t, success)
      ensures Entries() == if old(View(t)).at.InitList? || old(View(t)).at.CleanupFree? then [] else old(Entries())
    {
      hide Recorded, GoStep, Seen;
      GoIsSeen(sys, t, success);
      GoEntries(sys, t, success);
      Advance(Go(t, success));
    }

    lemma MayProceed(t: nat, success: bool)
      requires View(t).at != Outside && !View(t).at.CleanupChecked? && !View(t).at.CleanupJoin?
      ensures Possible(sys, Go(t, success))
    {
    }

    constructor (rdHup: bool)
      ensures (forall t :: Valid(t)) && !magic && mutex.owner == None && past == [] && fresh(mutex)
    {
      magic, init, die, list := false, false, false, null;
      mutex := new RecursiveMutex();
      this.rdHup, past, sys := rdHup, [], Initial(rdHup, true);
      new;
      InitialInv<BalSocket>(rdHup, true);
    }

    /** The next statement of a thread that nothing can hold up. */
    method GoOn(t: nat, success: bool)
      requires Recorded() && View(t).at != Outside && !View(t).at.CleanupChecked? && !View(t).at.CleanupJoin?
      modifies this`past, this`sys
      ensures Recorded() && old(past) <= past && View(t) == Seen(old(View(t)), t, success)
      ensures Entries() == if old(View(t)).at.InitList? || old(View(t)).at.CleanupFree? then [] else old(Entries())
    {
      hide Recorded, Possible, View, Seen;
      MayProceed(t, success);
      Proceed(t, success);
    }

    /** The same for a statement that leaves the list alone. */
    method GoOnListed(t: nat, success: bool)
      requires Recorded() && View(t).at != Outside && !View(t).at.CleanupChecked? && !View(t).at.CleanupJoin?
      requires Listed() && !View(t).at.InitList? && !View(t).at.CleanupFree?
      modifies this`past, this`sys
      ensures Recorded() && old(past) <= past && View(t) == Seen(old(View(t)), t, success) && Listed()
    {
      hide Recorded, View, Seen, BalList.Valid;
      GoOn(t, success);
    }

    /** While async I/O is up there is a list, so nothing is ever appended to a missing one. */
    lemma AppendHasList(t: nat, l: Label<BalSocket>)
      requires Recorded() && Possible(sys, Core(l)) && ChangeIn(sys.core, l).Append?
      ensures View(t).list
    {
      hide Fresh, Balance, Clean;
      IsQuiet();
      if !sys.core.w.init {
        DownKeepsRegistry(sys.core.w, l.op);
      }
    }

    /** Any number of steps of the event thread, its callbacks and other threads, at any time: the list follows them. */
    method Elapse(t: nat)
      requires Valid(t)
      modifies this`past, this`sys, list, if list != null then list.nodes else []
      ensures Valid(t) && old(past) <= past && View(t) == old(View(t))
    {
      hide Recorded, Possible, View, Listed;
      var n :| n >= 0;
      for i := 0 to n
        invariant Recorded() && old(past) <= past && View(t) == old(View(t)) && Listed()
        invariant list != null ==>
          forall k | 0 <= k < |list.nodes| :: list.nodes[k] in old(list.nodes) || fresh(list.nodes[k])
      {
        var c: Option<Label<BalSocket>> := *;
        if c.Some? && Possible(sys, Core(c.value)) {
          OneStep(t, c.value);
        }
      }
    }

    method OneStep(t: nat, l: Label<BalSocket>)
      requires Recorded() && Listed() && (list != null <==> View(t).list) && Possible(sys, Core(l))
      modifies this`past, this`sys, list, if list != null then list.nodes else []
      ensures Recorded() && Listed() && old(past) <= past && View(t) == old(View(t))
      ensures list != null ==>
        forall k | 0 <= k < |list.nodes| :: list.nodes[k] in old(list.nodes) || fresh(list.nodes[k])
    {
      hide Recorded, BalList.Valid, Step, Enabled, SightOf, ChangeIn;
      ChangeIsStep(sys.core, l);
      CoreIsUnseen(sys, l, t);
      var c := ChangeIn(sys.core, l);
      if c.Append? {
        AppendHasList(t, l);
      }
      Advance(Core(l));
      match c
      case Keep =>
      case Append(e) =>
        var ok := list.Add(e.key, e.val, true);
      case Delete(key) =>
        if list != null {
          var val := list.Remove(key);
        }
    }

    /** Starts the event thread and stores the two flags, in that order. */
    method StartThread(t: nat, spawned: bool)
      requires Valid(t) && View(t).at == InitSpawn
      modifies this`init, this`die, this`past, this`sys
      ensures Valid(t) && old(past) <= past
      ensures View(t) == old(View(t)).(at := InitMagic(spawned), init := spawned, die := !spawned)
    {
      hide Recorded, Listed, View;
      GoOnListed(t, spawned);
      init := spawned;
      GoOnListed(t, true);
      die := !spawned;
      GoOnListed(t, true);
    }

    /** _bal_init_asyncpoll: `memory` and `spawned` say whether the list can be allocated and the thread started. */
    method InitAsyncPoll(t: nat, memory: bool, spawned: bool) returns (ok: bool)
      requires Valid(t) && View(t).at == InitLocked && !magic
      modifies this
      ensures Valid(t) && old(past) <= past && magic == old(magic)
      ensures ok == (!old(init) && memory && spawned)
      ensures ok ==> list != null && fresh(list) && list.contents == []
      ensures var v := old(View(t));
        View(t) == if v.init then v.(at := InitUnlock(false))
                   else if !memory then v.(at := InitUnlock(false), list := false)
                   else v.(at := InitMagic(spawned), init := spawned, die := !spawned, list := true)
    {
      hide Recorded, BalList.Valid, View;
      GoOn(t, true);
      if init {
        return false;
      }
      list := null;
      if memory {
        list := new BalList();
      }
      GoOn(t, memory);
      if memory {
        StartThread(t, spawned);
      }
      ok := memory && spawned;
    }

    /** Calls bal_init and gets the mutex. */
    method EnterInit(t: nat)
      requires Recorded() && Listed() && View(t).at == Outside && View(t).mutex == None
      modifies this`past, this`sys
      ensures Recorded() && old(past) <= past && View(t) == old(View(t)).(at := InitLocked, mutex := Some(t))
      ensures Listed()
    {
      hide Recorded, BalList.Valid;
      Advance(CallInit(t));
    }

    /** Calls bal_cleanup, which first checks the magic word without the mutex. */
    method EnterCleanup(t: nat)
      requires Recorded() && Listed() && View(t).at == Outside
      modifies this`past, this`sys
      ensures Recorded() && old(past) <= past
      ensures View(t) == if old(View(t)).magic then old(View(t)).(at := CleanupChecked) else old(View(t))
      ensures Listed()
    {
      hide Recorded, BalList.Valid;
      Advance(CallCleanup(t));
    }

    /** What bal_init does with the mutex held. */
    method InitUnderMutex(t: nat, memory: bool, spawned: bool) returns (ok: bool)
      requires Valid(t) && View(t).at == InitLocked
      modifies this
      ensures Valid(t) && old(past) <= past
      ensures ok == (!old(magic) && !old(init) && memory && spawned)
      ensures ok ==> !die && list != null && fresh(list) && list.contents == []
      ensures magic == (old(magic) || ok) && init == (if old(magic) || old(init) || !memory then old(init) else spawned)
      ensures var v := old(View(t));
        View(t) == v.(at := InitUnlock(ok), magic := magic, init := init, die := die, list := list != null)
    {
      hide Recorded, BalList.Valid, View;
      ok := !magic;
      if ok {
        ok := InitAsyncPoll(t, memory, spawned);
      } else {
        GoOn(t, true);
      }
      if ok {
        magic := true;
      }
      if View(t).at.InitMagic? {
        GoOn(t, true);
      }
    }

    /** With the mutex free the magic word, the flag and the balance of successes agree. */
    lemma AtRest(t: nat)
      requires Recorded() && View(t).mutex == None
      ensures View(t).magic == View(t).init
      ensures View(t).inits == View(t).cleanups + (if View(t).magic then 1 else 0)
    {
      hide Inv;
      Accounting<BalSocket>(rdHup, true, past);
    }

    /** bal_init */
    method Init(t: nat, memory: bool, spawned: bool) returns (ok: bool)
      requires Valid(t) && View(t).at == Outside && mutex.owner == None
      modifies this, mutex
      ensures Valid(t) && old(past) <= past && View(t).at == Outside && mutex.owner == None
      ensures ok == (!old(magic) && memory && spawned) && magic == init == (old(magic) || ok)
      ensures ok ==> !die && list != null && fresh(list) && list.contents == []
      ensures View(t).inits == old(View(t).inits) + (if ok then 1 else 0) && View(t).cleanups == old(View(t).cleanups)
    {
      hide Recorded, Listed, View;
      AtRest(t);
      mutex.Lock(t);
      EnterInit(t);
      ok := InitUnderMutex(t, memory, spawned);
      mutex.Unlock(t);
      GoOnListed(t, true);
    }

    // ----- Shutdown -----

    /** Whoever is about to tear down a library that is up finds its list there. */
    lemma ListIsThere(t: nat)
      requires Recorded() && View(t).at == CleanupLocked && View(t).mutex == Some(t) && View(t).init
      ensures View(t).list
    {
    }

    /** Lowers the flag. Up to here the registry was safe, and the flag has no part in that. */
    method LowerFlag(t: nat)
      requires Recorded() && View(t).at == CleanupFlag && View(t).init && Listed()
      modifies this`past, this`sys
      ensures Recorded() && old(past) <= past && View(t) == old(View(t)).(at := CleanupJoin, init := false)
      ensures Clean(sys.core) && Listed()
    {
      hide BalList.Valid, History, After, OwnerInv, Clean, GoStep;
      IsQuiet();
      assert Clean(sys.core);
      LoweringKeepsClean(sys, t);
      GoIsSeen(sys, t, true);
      GoEntries(sys, t, true);
      Advance(Go(t, true));
    }

    /** The event thread runs until it has left its loop, which takes finitely many steps of its own, whatever calls
        come in between from other threads and from its callbacks; then it is joined. The list follows what it does. */
    method JoinThread(t: nat)
      requires Recorded() && View(t).at == CleanupJoin && View(t).mutex == Some(t)
      requires View(t).die && !View(t).init && Clean(sys.core) && list != null && Listed()
      modifies this`past, this`sys, list, list.nodes
      ensures Recorded() && old(past) <= past && View(t) == old(View(t)).(at := CleanupFree)
      ensures Listed() && forall i | 0 <= i < |list.nodes| :: list.nodes[i] in old(list.nodes)
      ensures forall n | n in old(list.nodes) :: n in list.nodes || !n.live
    {
      hide Recorded, Step, Enabled, Clean, BalList.Valid;
      ThreadIsThere(t);
      while !sys.core.pc.Exited?
        invariant Recorded() && old(past) <= past && View(t) == old(View(t)) && Clean(sys.core)
        invariant sys.core.pc.WellFormed() && !sys.core.pc.NoThread?
        invariant Listed() && forall i | 0 <= i < |list.nodes| :: list.nodes[i] in old(list.nodes)
        invariant forall n | n in old(list.nodes) :: n in list.nodes || !n.live
        decreases Remaining(sys.core)
      {
        OtherSteps(t);
        OneThreadStep(t);
      }
      Proceed(t, true);
    }

    /** Any number of API calls, by other threads or from a callback, that free no registered socket. */
    method OtherSteps(t: nat)
      requires Recorded() && sys.core.w.die && !sys.core.w.init && Clean(sys.core)
      requires sys.core.pc.WellFormed() && !sys.core.pc.NoThread?
      modifies this`past, this`sys
      ensures Recorded() && old(past) <= past && View(t) == old(View(t)) && Clean(sys.core)
      ensures sys.core.pc == old(sys.core.pc) && Entries() == old(Entries())
      ensures Remaining(sys.core) <= old(Remaining(sys.core))
    {
      hide Recorded, Step, Enabled, Clean, Disciplined, Remaining;
      IsQuiet();
      var n :| n >= 0;
      for i := 0 to n
        invariant Recorded() && old(past) <= past && View(t) == old(View(t)) && Clean(sys.core)
        invariant sys.core.pc == old(sys.core.pc) && sys.quiet && Entries() == old(Entries())
        invariant Remaining(sys.core) <= old(Remaining(sys.core))
      {
        var c: Option<Label<BalSocket>> := *;
        if c.Some? && (c.value.User? || c.value.Handler?) {
          var l := c.value;
          if Possible(sys, Core(l)) && Disciplined(sys.core, l) {
            CallKeepsRegistry(sys.core, l);
            CoreKeepsFlags(sys.core, l);
            StepSpendsBudget(sys.core, l);
            StepKeepsClean(sys.core, l);
            Advance(Core(l));
          }
        }
      }
    }

    lemma ThreadIsThere(t: nat)
      requires Recorded() && View(t).at == CleanupJoin && View(t).mutex == Some(t)
      ensures sys.core.pc.WellFormed() && !sys.core.pc.NoThread?
    {
    }

    /** One step of the event thread on its way out. `fd` is the descriptor that it takes off the list, if any. */
    method ThreadSteps(t: nat) returns (fd: Option<int>)
      requires Recorded() && sys.core.w.die && Clean(sys.core)
      requires sys.core.pc.WellFormed() && !sys.core.pc.NoThread? && !sys.core.pc.Exited?
      modifies this`past, this`sys
      ensures Recorded() && old(past) <= past && View(t) == old(View(t)) && Clean(sys.core)
      ensures sys.core.pc.WellFormed() && !sys.core.pc.NoThread? && Remaining(sys.core) < old(Remaining(sys.core))
      ensures Entries() == if fd.Some? then Registry.Remove(old(Entries()), fd.value) else old(Entries())
    {
      hide Recorded, Step, Enabled, Safe, Takes, NextStep, SightOf, Remaining;
      ThreadCanStep(sys.core);
      var c: Option<Label<BalSocket>> := *;
      var l := if c.Some? && c.value.OfThread() && Enabled(sys.core, c.value) then c.value else NextStep(sys.core.pc);
      fd := Takes(sys.core, l);
      ThreadStepEffects(sys.core, l);
      CoreIsUnseen(sys, l, t);
      Advance(Core(l));
    }

    /** One step of the event thread and what it does to the list. */
    method OneThreadStep(t: nat)
      requires Recorded() && sys.core.w.die && Clean(sys.core) && list != null && Listed()
      requires sys.core.pc.WellFormed() && !sys.core.pc.NoThread? && !sys.core.pc.Exited?
      modifies this`past, this`sys, list, list.nodes
      ensures Recorded() && old(past) <= past && View(t) == old(View(t)) && Clean(sys.core)
      ensures sys.core.pc.WellFormed() && !sys.core.pc.NoThread? && Remaining(sys.core) < old(Remaining(sys.core))
      ensures Listed() && forall i | 0 <= i < |list.nodes| :: list.nodes[i] in old(list.nodes)
      ensures forall n | n in old(list.nodes) :: n in list.nodes || !n.live
    {
      hide Recorded, Clean, Remaining, View, BalList.Valid;
      var fd := ThreadSteps(t);
      if fd.Some? {
        var val := list.Remove(fd.value);
      }
    }

    /** Walks what is left on the list. */
    static method WarnOfDangling(lst: BalList) returns (ghost seen: seq<Entry<BalSocket>>)
      requires lst.Valid()
      modifies lst`iter, lst`cursor
      ensures lst.Valid() && seen == lst.contents
    {
      lst.ResetIterator();
      seen := [];
      var item := lst.Iterate();
      while item.Some?
        invariant lst.Valid() && |seen| <= |lst.contents| && seen == lst.contents[..|seen|]
        invariant if item.Some? then lst.cursor == |seen| + 1 <= |lst.contents| && item.value == lst.contents[|seen|]
                  else |seen| == |lst.contents|
        decreases |lst.contents| - lst.cursor + (if item.Some? then 1 else 0)
      {
        seen := seen + [item.value];
        item := lst.Iterate();
      }
    }

    /** Tells the event thread to stop, takes the library down, and waits for the thread to leave. */
    method StopThread(t: nat)
      requires Valid(t) && View(t).at == CleanupLocked && mutex.owner == Some(t) && init
      requires list != null
      modifies this`die, this`init, this`past, this`sys, list, list.nodes
      ensures Valid(t) && old(past) <= past
      ensures View(t) == old(View(t)).(at := CleanupFree, init := false, die := true)
      ensures forall i | 0 <= i < |list.nodes| :: list.nodes[i] in old(list.nodes)
      ensures forall n | n in old(list.nodes) :: n in list.nodes || !n.live
    {
      hide Recorded, Listed, View, Clean;
      die := true;
      GoOnListed(t, true);
      init := false;
      LowerFlag(t);
      JoinThread(t);
    }

    /** Frees the list once the event thread is gone: its nodes, one for each socket still registered, and itself. */
    method FreeList(t: nat) returns (ghost dangling: seq<Entry<BalSocket>>)
      requires Valid(t) && View(t).at == CleanupFree && list != null
      modifies this`list, this`past, this`sys, list, list.nodes
      ensures Valid(t) && old(past) <= past && list == null && !old(list).live
      ensures |old(list.nodes)| == |old(Entries())| && forall n | n in old(list.nodes) :: !n.live
      ensures dangling == old(Entries()) && Entries() == []
      ensures View(t) == old(View(t)).(at := CleanupMagic(true), list := false)
    {
      hide Recorded, BalList.Valid, View;
      OneNodeEach(list);
      dangling := WarnOfDangling(list);
      var ok;
      ok, list := DestroyList(list);
      GoOn(t, true);
    }

    /** _bal_cleanup_asyncpoll */
    method CleanupAsyncPoll(t: nat) returns (ok: bool)
      requires Valid(t) && View(t).at == CleanupLocked && mutex.owner == Some(t)
      modifies this, list, if list != null then list.nodes else []
      ensures Valid(t) && old(past) <= past && ok == old(init) && magic == old(magic)
      ensures ok ==> old(list) != null && list == null && !old(list).live && forall n | n in old(list.nodes) :: !n.live
      ensures var v := old(View(t));
        View(t) == if ok then v.(at := CleanupMagic(true), init := false, die := true, list := false)
                   else v.(at := CleanupMagic(false))
    {
      hide Recorded, BalList.Valid, View;
      ok := init;
      if !ok {
        GoOn(t, true);
      } else {
        ListIsThere(t);
        StopThread(t);
        ghost var dangling := FreeList(t);
      }
    }

    /** What bal_cleanup does with the mutex held. */
    method CleanupUnderMutex(t: nat) returns (ok: bool)
      requires Valid(t) && View(t).at == CleanupLocked && mutex.owner == Some(t)
      modifies this, list, if list != null then list.nodes else []
      ensures Valid(t) && old(past) <= past && ok == old(init) && !magic && (ok ==> !init && list == null)
      ensures View(t) == old(View(t)).(at := CleanupUnlock(ok), magic := false, init := init, die := die,
                                       list := list != null)
    {
      hide Recorded, BalList.Valid, View;
      ok := CleanupAsyncPoll(t);
      magic := false;
      GoOn(t, true);
    }

    /** bal_cleanup */
    method Cleanup(t: nat) returns (ok: bool)
      requires Valid(t) && View(t).at == Outside && mutex.owner == None
      modifies this, mutex, list, if list != null then list.nodes else []
      ensures Valid(t) && old(past) <= past && View(t).at == Outside && mutex.owner == None
      ensures ok == old(magic) && !magic && !init && (ok ==> list == null)
      ensures View(t).cleanups == old(View(t).cleanups) + (if ok then 1 else 0) && View(t).inits == old(View(t).inits)
    {
      hide Recorded, Listed, View;
      AtRest(t);
      EnterCleanup(t);
      if !magic {
        return false;
      }
      mutex.Lock(t);
      TakeMutex(t);
      ok := CleanupUnderMutex(t);
      mutex.Unlock(t);
      GoOnListed(t, true);
    }

    method TakeMutex(t: nat)
      requires Recorded() && Listed() && View(t).at == CleanupChecked && View(t).mutex == None
      modifies this`past, this`sys
      ensures Recorded() && old(past) <= past && View(t) == old(View(t)).(at := CleanupLocked, mutex := Some(t))
      ensures Listed()
    {
      hide Recorded, BalList.Valid;
      Proceed(t, true);
    }
  }
}
