/** The library's shared state as a value, and what each API function does to it.

    `P` stands for socket addresses. Each function below is one atomic section of the source; outcomes of system
    calls and allocations are parameters. */
module World {
  import opened Events
  import opened Registry

  /** A bal_socket. `proc` is the event callback (None is a null pointer). */
  datatype Sock = Sock(sd: int, userData: nat, mask: bv32, bits: bv32, proc: Option<nat>)

  /** Live sockets by address, the registry, and the two flags of the async I/O machinery. */
  datatype World<P(==)> = World(heap: map<P, Sock>, reg: seq<Entry<P>>, init: bool, die: bool)

  datatype Status = Ok | NotInitialized | BadSocket | InvalidArgument | NotRegistered | SystemError | OutOfMemory

  datatype How = ShutRead | ShutWrite | ShutBoth

  datatype Op<P(==)> =
    | Create(p: P, sd: int, userData: nat)
    | Accept(listener: P, p: P, sd: int)
    | AsyncPoll(p: P, proc: Option<nat>, mask: bv32, ioMode: bool, memory: bool)
    | PollSection(p: P, proc: Option<nat>, mask: bv32, ioMode: bool, memory: bool)
    | CloseDescriptor(p: P, success: bool)
    | Destroy(p: P)
    | Shutdown(p: P, how: How, success: bool)
    | Connect(p: P, accepted: bool)
    | Listen(p: P, success: bool)
    | AddToMask(p: P, added: bv32)
    | RemoveFromMask(p: P, cleared: bv32)
    | SetUserData(p: P, data: nat)

  /** What the caller owes: sockets it passes are live, and a new socket's address is not in use. The descriptor
      of a new socket may equal that of any other socket. */
  predicate Callable<P>(w: World<P>, op: Op<P>) {
    match op
    case Create(p, sd, _) => p !in w.heap && sd >= 0
    case Accept(listener, p, sd) => listener in w.heap && p !in w.heap && sd > 0
    case PollSection(p, proc, mask, _, _) => p in w.heap && GoodArguments(w.heap[p], proc, mask)
    case _ => op.p in w.heap
  }

  /** The arguments pass the tests that bal_async_poll makes before it takes the mutex. */
  predicate GoodArguments(s: Sock, proc: Option<nat>, mask: bv32) {
    s.sd != -1 && (proc == None ==> mask == 0)
  }

  /** Whether the function takes the registry mutex. */
  predicate Locks<P(==)>(op: Op<P>) {
    op.AsyncPoll? || op.PollSection? || op.Destroy?
  }

  predicate Polls<P(==)>(op: Op<P>) {
    op.AsyncPoll? || op.PollSection?
  }

  /** The result of the section of bal_async_poll under the mutex. */
  function SectionStatus<P>(w: World<P>, op: Op<P>): Status
    requires Polls(op) && op.p in w.heap
  {
    var sd := w.heap[op.p].sd;
    if op.mask == 0 then (if Has(w.reg, sd) then Ok else NotRegistered)
    else if Has(w.reg, sd) then Ok
    else if !op.ioMode then SystemError
    else if !op.memory then OutOfMemory
    else Ok
  }

  /** The section of bal_async_poll under the mutex. A thread that passed the tests before it may get there at any later
      time. */
  function ApplySection<P>(w: World<P>, op: Op<P>): World<P>
    requires Polls(op) && op.p in w.heap
  {
    var s := w.heap[op.p];
    var updated := w.heap[op.p := s.(mask := op.mask, proc := op.proc)];
    match SectionStatus(w, op)
    case Ok =>
      if op.mask == 0 then w.(reg := Remove(w.reg, s.sd))
      else if Has(w.reg, s.sd) then w.(heap := updated)
      else w.(heap := updated, reg := w.reg + [Entry(s.sd, op.p)])
    case OutOfMemory => w.(heap := updated)
    case _ => w
  }

  /** All of bal_async_poll, when nothing comes between the tests and the section. */
  function AsyncPollStatus<P>(w: World<P>, op: Op<P>): Status
    requires op.AsyncPoll? && Callable(w, op)
  {
    if !w.init || w.die then NotInitialized
    else if w.heap[op.p].sd == -1 then BadSocket
    else if op.proc == None && op.mask != 0 then InvalidArgument
    else SectionStatus(w, op)
  }

  function ApplyAsyncPoll<P>(w: World<P>, op: Op<P>): World<P>
    requires op.AsyncPoll? && Callable(w, op)
  {
    if w.init && !w.die && GoodArguments(w.heap[op.p], op.proc, op.mask) then ApplySection(w, op) else w
  }

  /** While async I/O is up the socket leaves the registry first; either way it is freed. */
  function ApplyDestroy<P>(w: World<P>, p: P): World<P>
    requires p in w.heap
  {
    w.(heap := w.heap - {p}, reg := if w.init then Remove(w.reg, w.heap[p].sd) else w.reg)
  }

  function AfterClose(s: Sock, success: bool): Sock {
    if success then s.(bits := SetLow(SetHigh(s.bits, S_CLOSE), S_CONNECT | S_LISTEN)) else s
  }

  function AfterShutdown(s: Sock, how: How, success: bool): Sock {
    if !success then s
    else match how
      case ShutBoth => s.(mask := SetLow(s.mask, Both(EvtRead, EvtWrite)), bits := SetLow(s.bits, S_CONNECT | S_LISTEN))
      case ShutRead => s.(mask := SetLow(s.mask, Bit(EvtRead)), bits := SetLow(s.bits, S_LISTEN))
      case ShutWrite => s.(mask := SetLow(s.mask, Bit(EvtWrite)), bits := SetLow(s.bits, S_CONNECT))
  }

  function AfterConnect(s: Sock, accepted: bool): Sock {
    if accepted then s.(mask := SetHigh(s.mask, Bit(EvtWrite)), bits := SetHigh(s.bits, S_CONNECT)) else s
  }

  function AfterListen(s: Sock, success: bool): Sock {
    if success then s.(mask := SetHigh(s.mask, Bit(EvtRead)), bits := SetHigh(s.bits, S_LISTEN)) else s
  }

  /** Functions that touch nothing but one socket. */
  predicate Touches<P(==)>(op: Op<P>) {
    || op.CloseDescriptor? || op.Shutdown? || op.Connect? || op.Listen? || op.AddToMask? || op.RemoveFromMask?
    || op.SetUserData?
  }

  /** The socket after such a function, which fails on a bad descriptor. */
  function Touched<P>(s: Sock, op: Op<P>): Sock
    requires Touches(op)
  {
    match op
    case AddToMask(_, added) => s.(mask := SetHigh(s.mask, added))
    case RemoveFromMask(_, cleared) => s.(mask := SetLow(s.mask, cleared))
    case SetUserData(_, data) => s.(userData := data)
    case CloseDescriptor(_, ok) => if s.sd == -1 then s else AfterClose(s, ok)
    case Shutdown(_, how, ok) => if s.sd == -1 then s else AfterShutdown(s, how, ok)
    case Connect(_, ok) => if s.sd == -1 then s else AfterConnect(s, ok)
    case Listen(_, ok) => if s.sd == -1 then s else AfterListen(s, ok)
  }

  function Apply<P>(w: World<P>, op: Op<P>): World<P>
    requires Callable(w, op)
  {
    match op
    case Create(p, sd, userData) => w.(heap := w.heap[p := Sock(sd, userData, 0, 0, None)])
    case Accept(_, p, sd) => w.(heap := w.heap[p := Sock(sd, 0, 0, 0, None)])
    case AsyncPoll(_, _, _, _, _) => ApplyAsyncPoll(w, op)
    case PollSection(_, _, _, _, _) => ApplySection(w, op)
    case Destroy(p) => ApplyDestroy(w, p)
    case _ => w.(heap := w.heap[op.p := Touched(w.heap[op.p], op)])
  }

  // ----- What the single-socket calls do to the pending bit and to read and write interest -----

  /** Which of the words used below have the pending bit. */
  lemma PendingBit()
    ensures S_CONNECT != 0 && S_CONNECT & (S_CONNECT - 1) == 0
    ensures IsSet(S_CONNECT | S_LISTEN, S_CONNECT) && IsSet(S_CONNECT, S_CONNECT)
    ensures !IsSet(S_LISTEN, S_CONNECT) && !IsSet(S_CLOSE, S_CONNECT)
  {
  }

  lemma ClosePending(s: Sock, ok: bool)
    ensures IsSet(AfterClose(s, ok).bits, S_CONNECT) <==> IsSet(s.bits, S_CONNECT) && !ok
  {
    hide IsSet, SetHigh, SetLow;
    PendingBit();
    LowUnsets(SetHigh(s.bits, S_CLOSE), S_CONNECT | S_LISTEN, S_CONNECT);
  }

  lemma ShutdownPending(s: Sock, how: How, ok: bool)
    ensures IsSet(AfterShutdown(s, how, ok).bits, S_CONNECT)
       <==> IsSet(s.bits, S_CONNECT) && !(ok && how != ShutRead)
  {
    hide IsSet, SetLow, Bit, Both;
    PendingBit();
    LowUnsets(s.bits, S_CONNECT | S_LISTEN, S_CONNECT);
    LowUnsets(s.bits, S_LISTEN, S_CONNECT);
    LowUnsets(s.bits, S_CONNECT, S_CONNECT);
  }

  lemma ConnectPending(s: Sock, ok: bool)
    ensures IsSet(AfterConnect(s, ok).bits, S_CONNECT) <==> IsSet(s.bits, S_CONNECT) || ok
  {
    hide IsSet, SetHigh;
    PendingBit();
    HighSets(s.bits, S_CONNECT, S_CONNECT);
  }

  lemma ListenPending(s: Sock, ok: bool)
    ensures IsSet(AfterListen(s, ok).bits, S_CONNECT) <==> IsSet(s.bits, S_CONNECT)
  {
    hide IsSet, SetHigh;
    PendingBit();
    HighSets(s.bits, S_LISTEN, S_CONNECT);
  }

  /** Neither readable nor writable events are wanted. */
  predicate Mute(mask: bv32) {
    EvtRead !in Decode(mask) && EvtWrite !in Decode(mask)
  }

  lemma ShutdownMutes(s: Sock, how: How, ok: bool)
    ensures Mute(s.mask) || (ok && how == ShutBoth) ==> Mute(AfterShutdown(s, how, ok).mask)
  {
    hide Decode, SetLow, Bit, Both;
    DecodeBoth(EvtRead, EvtWrite);
    DecodeBit(EvtRead);
    DecodeBit(EvtWrite);
    LowDrops(s.mask, Both(EvtRead, EvtWrite));
    LowDrops(s.mask, Bit(EvtRead));
    LowDrops(s.mask, Bit(EvtWrite));
  }

  // ----- What the single-socket calls leave behind -----

  /** The state bits of a socket. */
  predicate BitsAre(s: Sock, connecting: bool, listening: bool, closed: bool) {
    IsSet(s.bits, S_CONNECT) == connecting && IsSet(s.bits, S_LISTEN) == listening && IsSet(s.bits, S_CLOSE) == closed
  }

  /** Such a call changes mask, bits and user data of its socket at most, and nothing else. */
  lemma TouchesOnlyItsSocket<P>(w: World<P>, op: Op<P>)
    requires Callable(w, op) && Touches(op)
    ensures var w', s := Apply(w, op), w.heap[op.p];
      && w' == w.(heap := w.heap[op.p := w'.heap[op.p]])
      && w'.heap[op.p] == s.(mask := w'.heap[op.p].mask, bits := w'.heap[op.p].bits,
                             userData := if op.SetUserData? then op.data else s.userData)
    ensures (op.CloseDescriptor? || op.Shutdown? || op.Listen?) && !op.success ==> Apply(w, op) == w
    ensures op.Connect? && !op.accepted ==> Apply(w, op) == w
    ensures w.heap[op.p].sd == -1 && !op.AddToMask? && !op.RemoveFromMask? && !op.SetUserData? ==> Apply(w, op) == w
    ensures op.SetUserData? ==> Apply(w, op).heap[op.p] == w.heap[op.p].(userData := op.data)
  {
    hide AfterClose, AfterShutdown, AfterConnect, AfterListen;
    TouchedParts(w.heap[op.p], op);
    assert w.heap[op.p := w.heap[op.p]] == w.heap;
  }

  lemma TouchedParts<P>(s: Sock, op: Op<P>)
    requires Touches(op)
    ensures var s' := Touched(s, op);
      s' == s.(mask := s'.mask, bits := s'.bits, userData := if op.SetUserData? then op.data else s.userData)
    ensures (op.CloseDescriptor? || op.Shutdown? || op.Listen?) && !op.success ==> Touched(s, op) == s
    ensures op.Connect? && !op.accepted ==> Touched(s, op) == s
  {
    hide SetHigh, SetLow, Bit, Both;
  }

  /** A connect that is accepted asks for WRITE, which is how its outcome will be heard. */
  lemma ConnectLeaves<P>(w: World<P>, p: P)
    requires p in w.heap && w.heap[p].sd != -1
    ensures var s, s' := w.heap[p], Apply(w, Op.Connect(p, true)).heap[p];
      && Decode(s'.mask) == Decode(s.mask) + {EvtWrite}
      && BitsAre(s', true, IsSet(s.bits, S_LISTEN), IsSet(s.bits, S_CLOSE))
  {
    hide Decode, IsSet, SetHigh, Bit;
    HighAdds(w.heap[p].mask, Bit(EvtWrite));
    DecodeBit(EvtWrite);
    HighBits(w.heap[p].bits, S_CONNECT);
  }

  /** A listen asks for READ, which is how incoming connections will be heard. */
  lemma ListenLeaves<P>(w: World<P>, p: P)
    requires p in w.heap && w.heap[p].sd != -1
    ensures var s, s' := w.heap[p], Apply(w, Op.Listen(p, true)).heap[p];
      && Decode(s'.mask) == Decode(s.mask) + {EvtRead}
      && BitsAre(s', IsSet(s.bits, S_CONNECT), true, IsSet(s.bits, S_CLOSE))
  {
    hide Decode, IsSet, SetHigh, Bit;
    HighAdds(w.heap[p].mask, Bit(EvtRead));
    DecodeBit(EvtRead);
    HighBits(w.heap[p].bits, S_LISTEN);
  }

  /** Shutting a direction down withdraws the interest and the bit that belong to it, and leaves the other's. */
  lemma ShutdownLeaves<P>(w: World<P>, p: P, how: How)
    requires p in w.heap && w.heap[p].sd != -1
    ensures var s, s' := w.heap[p], Apply(w, Op.Shutdown(p, how, true)).heap[p];
      && Decode(s'.mask) == Decode(s.mask) - (match how
                                              case ShutRead => {EvtRead}
                                              case ShutWrite => {EvtWrite}
                                              case ShutBoth => {EvtRead, EvtWrite})
      && BitsAre(s', IsSet(s.bits, S_CONNECT) && how == ShutRead, IsSet(s.bits, S_LISTEN) && how == ShutWrite,
                 IsSet(s.bits, S_CLOSE))
  {
    hide Decode, IsSet, SetLow, Bit, Both;
    var s := w.heap[p];
    DecodeBit(EvtRead);
    DecodeBit(EvtWrite);
    DecodeBoth(EvtRead, EvtWrite);
    LowDrops(s.mask, Bit(EvtRead));
    LowDrops(s.mask, Bit(EvtWrite));
    LowDrops(s.mask, Both(EvtRead, EvtWrite));
    LowBits(s.bits, S_CONNECT);
    LowBits(s.bits, S_LISTEN);
    LowBits(s.bits, S_CONNECT | S_LISTEN);
  }

  /** A close marks the socket and withdraws what was pending; its mask stays. */
  lemma CloseLeaves<P>(w: World<P>, p: P)
    requires p in w.heap && w.heap[p].sd != -1
    ensures var s, s' := w.heap[p], Apply(w, Op.CloseDescriptor(p, true)).heap[p];
      s'.mask == s.mask && BitsAre(s', false, false, true)
  {
    hide IsSet, SetHigh, SetLow;
    var bits := w.heap[p].bits;
    HighBits(bits, S_CLOSE);
    LowBits(SetHigh(bits, S_CLOSE), S_CONNECT | S_LISTEN);
  }

  /** The mask helpers add and take the events they are given. */
  lemma MaskHelpersLeave<P>(w: World<P>, p: P, word: bv32)
    requires p in w.heap
    ensures var s, more, less := w.heap[p], Apply(w, Op.AddToMask(p, word)).heap[p],
                                 Apply(w, Op.RemoveFromMask(p, word)).heap[p];
      && Decode(more.mask) == Decode(s.mask) + Decode(word) && more.bits == s.bits
      && Decode(less.mask) == Decode(s.mask) - Decode(word) && less.bits == s.bits
  {
    hide Decode, SetHigh, SetLow;
    HighAdds(w.heap[p].mask, word);
    LowDrops(w.heap[p].mask, word);
  }

  /** Which state bits the words used above have. */
  lemma WordsOfBits()
    ensures IsSet(S_CONNECT | S_LISTEN, S_CONNECT) && IsSet(S_CONNECT | S_LISTEN, S_LISTEN)
    ensures !IsSet(S_CONNECT | S_LISTEN, S_CLOSE)
  {
  }

  lemma HighBits(bits: bv32, x: bv32)
    ensures forall bit | bit in {S_CONNECT, S_LISTEN, S_CLOSE} ::
      IsSet(SetHigh(bits, x), bit) <==> IsSet(bits, bit) || IsSet(x, bit)
    ensures IsSet(S_CONNECT, S_CONNECT) && !IsSet(S_CONNECT, S_LISTEN) && !IsSet(S_CONNECT, S_CLOSE)
    ensures IsSet(S_LISTEN, S_LISTEN) && !IsSet(S_LISTEN, S_CONNECT) && !IsSet(S_LISTEN, S_CLOSE)
    ensures IsSet(S_CLOSE, S_CLOSE) && !IsSet(S_CLOSE, S_CONNECT) && !IsSet(S_CLOSE, S_LISTEN)
  {
    hide IsSet, SetHigh;
    StateBits();
    HighSets(bits, x, S_CONNECT);
    HighSets(bits, x, S_LISTEN);
    HighSets(bits, x, S_CLOSE);
  }

  lemma LowBits(bits: bv32, x: bv32)
    ensures forall bit | bit in {S_CONNECT, S_LISTEN, S_CLOSE} ::
      IsSet(SetLow(bits, x), bit) <==> IsSet(bits, bit) && !IsSet(x, bit)
    ensures IsSet(S_CONNECT, S_CONNECT) && !IsSet(S_CONNECT, S_LISTEN) && !IsSet(S_CONNECT, S_CLOSE)
    ensures IsSet(S_LISTEN, S_LISTEN) && !IsSet(S_LISTEN, S_CONNECT) && !IsSet(S_LISTEN, S_CLOSE)
    ensures IsSet(S_CONNECT | S_LISTEN, S_CONNECT) && IsSet(S_CONNECT | S_LISTEN, S_LISTEN)
    ensures !IsSet(S_CONNECT | S_LISTEN, S_CLOSE)
  {
    hide IsSet, SetLow;
    StateBits();
    WordsOfBits();
    LowUnsets(bits, x, S_CONNECT);
    LowUnsets(bits, x, S_LISTEN);
    LowUnsets(bits, x, S_CLOSE);
  }

  // ----- What bal_async_poll answers, and what it does -----

  /** Each answer has its one cause, tested in this order; only a successful call changes the registry, and only a
      failed allocation changes a socket without succeeding. */
  lemma AsyncPollAnswers<P>(w: World<P>, op: Op<P>)
    requires op.AsyncPoll? && Callable(w, op)
    ensures var sd, known, status := w.heap[op.p].sd, Has(w.reg, w.heap[op.p].sd), AsyncPollStatus(w, op);
      var up, good := w.init && !w.die, sd != -1 && (op.proc.Some? || op.mask == 0);
      && (status == NotInitialized <==> !up)
      && (status == BadSocket <==> up && sd == -1)
      && (status == InvalidArgument <==> up && sd != -1 && op.proc == None && op.mask != 0)
      && (status == NotRegistered <==> up && good && op.mask == 0 && !known)
      && (status == SystemError <==> up && good && op.mask != 0 && !known && !op.ioMode)
      && (status == OutOfMemory <==> up && good && op.mask != 0 && !known && op.ioMode && !op.memory)
    ensures AsyncPollStatus(w, op) !in {Ok, OutOfMemory} ==> Apply(w, op) == w
    ensures AsyncPollStatus(w, op) == OutOfMemory ==> Apply(w, op).reg == w.reg
  {
    hide Has, Remove;
  }

  /** A successful registration puts mask and callback in place and leaves the descriptor registered; a successful
      deregistration takes it off. Lookups of other descriptors, and other sockets, stay as they are. */
  lemma AsyncPollEffect<P>(w: World<P>, op: Op<P>)
    requires op.AsyncPoll? && Callable(w, op) && AsyncPollStatus(w, op) == Ok && DistinctKeys(w.reg)
    ensures var w', s := Apply(w, op), w.heap[op.p];
      && (Has(w'.reg, s.sd) <==> op.mask != 0)
      && (forall key | key != s.sd :: Find(w'.reg, key) == Find(w.reg, key))
      && w'.heap == (if op.mask != 0 then w.heap[op.p := s.(mask := op.mask, proc := op.proc)] else w.heap)
      && w'.init == w.init && w'.die == w.die
  {
    hide DistinctKeys, Remove;
    var sd := w.heap[op.p].sd;
    if op.mask == 0 {
      RemoveForgets(w.reg, sd);
      forall key | key != sd ensures Find(Remove(w.reg, sd), key) == Find(w.reg, key) {
        RemoveKeepsOthers(w.reg, sd, key);
      }
    } else if !Has(w.reg, sd) {
      AppendKeeps(w.reg, Entry(sd, op.p));
    }
  }

  // ----- No dangling registration -----

  /** Keys are distinct valid descriptors, and every value is a live socket whose descriptor is its key and whose
      callback is set. */
  ghost predicate Safe<P>(w: World<P>) {
    && DistinctKeys(w.reg)
    && forall e | e in w.reg :: e.key != -1 && e.val in w.heap && w.heap[e.val].sd == e.key && w.heap[e.val].proc.Some?
  }

  predicate Registered<P(==)>(w: World<P>, p: P) {
    exists e :: e in w.reg && e.val == p
  }

  /** In a safe registry a socket can only be found under its own descriptor. */
  lemma RegisteredUnderOwnDescriptor<P>(w: World<P>, p: P)
    requires Safe(w) && p in w.heap
    ensures Registered(w, p) <==> Find(w.reg, w.heap[p].sd) == Some(p)
  {
    if Registered(w, p) {
      var e :| e in w.reg && e.val == p;
      FindMember(w.reg, e);
    } else {
      assert Has(w.reg, w.heap[p].sd) ==> w.reg[IndexOf(w.reg, w.heap[p].sd)] in w.reg;
    }
  }

  /** Freeing a socket leaves the registry safe exactly when async I/O is up or the socket was not registered. */
  lemma DestroySafety<P>(w: World<P>, p: P)
    requires Safe(w) && p in w.heap
    ensures Safe(ApplyDestroy(w, p)) <==> w.init || !Registered(w, p)
  {
    RegisteredUnderOwnDescriptor(w, p);
    RemoveForgets(w.reg, w.heap[p].sd);
    var w' := ApplyDestroy(w, p);
    if w.init || !Registered(w, p) {
      forall e | e in w'.reg
        ensures e.key != -1 && e.val in w'.heap && w'.heap[e.val].sd == e.key && w'.heap[e.val].proc.Some?
      {
        assert e in w.reg;
      }
    } else {
      var e :| e in w.reg && e.val == p;
      assert e in w'.reg && e.val !in w'.heap;
    }
  }

  lemma RemoveKeepsSafe<P>(w: World<P>, key: int)
    requires Safe(w)
    ensures Safe(w.(reg := Remove(w.reg, key))) && !Has(Remove(w.reg, key), key)
  {
    RemoveForgets(w.reg, key);
  }

  lemma UpdateKeepsSafe<P>(w: World<P>, p: P, s: Sock)
    requires Safe(w) && p in w.heap && s.sd == w.heap[p].sd && (s.proc.Some? || s.proc == w.heap[p].proc)
    ensures Safe(w.(heap := w.heap[p := s]))
  {
  }

  lemma NewSocketKeepsSafe<P>(w: World<P>, p: P, s: Sock)
    requires Safe(w) && p !in w.heap
    ensures Safe(w.(heap := w.heap[p := s]))
  {
  }

  lemma AppendKeepsSafe<P>(w: World<P>, p: P)
    requires Safe(w) && p in w.heap && w.heap[p].proc.Some? && w.heap[p].sd != -1 && !Has(w.reg, w.heap[p].sd)
    ensures Safe(w.(reg := w.reg + [Entry(w.heap[p].sd, p)]))
  {
    AppendKeeps(w.reg, Entry(w.heap[p].sd, p));
  }

  /** The section keeps the registry safe whenever it runs. */
  lemma SectionKeepsSafe<P>(w: World<P>, op: Op<P>)
    requires Safe(w) && Polls(op) && op.p in w.heap && GoodArguments(w.heap[op.p], op.proc, op.mask)
    ensures Safe(ApplySection(w, op))
  {
    hide Safe;
    var s := w.heap[op.p];
    RemoveKeepsSafe(w, s.sd);
    if op.proc.Some? {
      var updated := s.(mask := op.mask, proc := op.proc);
      UpdateKeepsSafe(w, op.p, updated);
      var w' := w.(heap := w.heap[op.p := updated]);
      if !Has(w.reg, s.sd) {
        AppendKeepsSafe(w', op.p);
      }
    }
  }

  /** Every API function keeps the registry safe, whatever descriptors get reused, unless it frees a registered
      socket while async I/O is down. */
  lemma ApplyKeepsSafe<P>(w: World<P>, op: Op<P>)
    requires Safe(w) && Callable(w, op)
    requires op.Destroy? && !w.init ==> !Registered(w, op.p)
    ensures Safe(Apply(w, op))
  {
    hide Safe;
    match op
    case Destroy(p) => DestroySafety(w, p);
    case AsyncPoll(_, proc, mask, _, _) =>
      if GoodArguments(w.heap[op.p], proc, mask) {
        SectionKeepsSafe(w, op);
      }
    case PollSection(_, _, _, _, _) => SectionKeepsSafe(w, op);
    case Create(p, sd, userData) => NewSocketKeepsSafe(w, p, Sock(sd, userData, 0, 0, None));
    case Accept(_, p, sd) => NewSocketKeepsSafe(w, p, Sock(sd, 0, 0, 0, None));
    case _ => UpdateKeepsSafe(w, op.p, Touched(w.heap[op.p], op));
  }

  /** A successful registration really registers the socket exactly when no other socket holds its descriptor. */
  lemma RegistrationIsEffective<P>(w: World<P>, op: Op<P>)
    requires Safe(w) && op.AsyncPoll? && Callable(w, op) && op.mask != 0 && AsyncPollStatus(w, op) == Ok
    ensures Registered(Apply(w, op), op.p) <==> Find(w.reg, w.heap[op.p].sd) in {None, Some(op.p)}
  {
    ApplyKeepsSafe(w, op);
    RegisteredUnderOwnDescriptor(Apply(w, op), op.p);
    if !Has(w.reg, w.heap[op.p].sd) {
      AppendKeeps(w.reg, Entry(w.heap[op.p].sd, op.p));
    }
  }

  lemma RegisteredAfterRemove<P>(w: World<P>, key: int, q: P)
    requires Safe(w) && Registered(w, q)
    ensures q in w.heap && (Registered(w.(reg := Remove(w.reg, key)), q) <==> w.heap[q].sd != key)
  {
    var e :| e in w.reg && e.val == q;
    RemoveDropsOnly(w.reg, key, e);
    RemoveKeepsSafe(w, key);
    if Registered(w.(reg := Remove(w.reg, key)), q) {
      var e' :| e' in Remove(w.reg, key) && e'.val == q;
      RemoveForgets(w.reg, key);
    }
  }

  /** Freeing a socket goes by its descriptor: another registered socket stays registered exactly when it has a
      different one. A socket that was closed but not freed takes the new owner of its descriptor off the list. */
  lemma DestroyHitsNamesake<P>(w: World<P>, p: P, q: P)
    requires Safe(w) && w.init && p in w.heap && Registered(w, q) && q != p
    ensures q in w.heap && (Registered(ApplyDestroy(w, p), q) <==> w.heap[p].sd != w.heap[q].sd)
  {
    RegisteredAfterRemove(w, w.heap[p].sd, q);
  }

  /** So does deregistering one. */
  lemma DeregisterHitsNamesake<P>(w: World<P>, op: Op<P>, q: P)
    requires Safe(w) && w.init && !w.die && op.AsyncPoll? && Callable(w, op) && op.mask == 0
    requires Registered(w, q) && q != op.p
    ensures q in w.heap && (Registered(Apply(w, op), q) <==> w.heap[op.p].sd != w.heap[q].sd)
  {
    RegisteredAfterRemove(w, w.heap[op.p].sd, q);
    if !Has(w.reg, w.heap[op.p].sd) {
      assert Remove(w.reg, w.heap[op.p].sd) == w.reg;
    }
  }
}
