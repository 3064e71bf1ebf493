# The asynchronous I/O engine of libbal, modelled and verified

libbal lets a program register sockets with `bal_async_poll` and hear about them through a callback. One event thread polls every registered socket, translates what `poll()` reports into events, and calls the callbacks. The registry is a doubly linked list under a recursive mutex. The event thread gives the mutex up while it polls and holds it while it calls back. A callback may call any API function, may free the very socket it is called for, and descriptor numbers get reused. This project models that engine, the connection state kept in each socket's mask and bits, start-up and shutdown of the library, address lists, and the ownership link of the C++ wrapper. It proves what the design rests on.

## How it is built

There are two layers and a refinement between them.

The value layer says what the library does, with every outcome it does not control (system calls, allocations, scheduling, callbacks) as a parameter:

- `Registry.dfy`: the registry as an ordered sequence of (descriptor, socket) pairs.
- `Events.dfy`: event words, `poll()` flags, and a closed form of the translation done on each dispatch.
- `World.dfy`: live sockets, registry and flags; the effect of each API function; when a registration can dangle.
- `Machine.dfy`: the event thread and everything around it as a state machine. A mutex-protected section is one step. Between two steps of the event thread any other thread may step, except for calls that need the mutex while it is held. A callback is any finite sequence of API steps. `Fault` is the state of a thread that has followed a pointer to a freed socket.
- `Pass.dfy`, `Connections.dfy`: theorems about one pass, from what is asked of `poll()` to what a callback hears, and about a connecting socket over whole runs.
- `Lifecycle.dfy`, `Teardown.dfy`: `bal_init` and `bal_cleanup` statement by statement, from any number of threads, around that machine; the theorems over whole histories.
- `Aftermath.dfy`: when freed sockets can still be followed.
- `Witnesses.dfy`: histories from the initial state in which something goes wrong.
- `Ownership.dfy`, `Dispatch.dfy`: the C++ wrappers, their user-data link, and the event callback that runs a wrapper's handlers.

The heap layer has the shape of the code: classes with fields that methods update in place, loops, and arrays. Each method is proved to be the function or the step of the same name in the value layer:

- `SocketList.dfy`: `bal_socket` with the event translator, list nodes, and the list with its built-in iterator. The memory of a freed socket holds nothing, so every read or write of one of its fields has to be of a live one. (A body could still ask whether the memory holds something; none does.) Nodes and lists carry a ghost `live` mark that their members require; the methods of this file touch nodes only through these members, so they follow no freed node and free none twice.
- `AddressList.dfy`: the address list, in the same style.
- `Engine.dfy`: the recursive mutex and the API functions.
- `EventThread.dfy`: the event thread, with arbitrary other threads and callbacks. Its ghost trace is a run of `Machine`, so every theorem about runs applies to it.
- `Startup.dfy`: `bal_init` and `bal_cleanup` with their flags, mutex and list. The record of their statements is a history of `Lifecycle`, the list holds the registry of that history at all times, and joining is a loop over the event thread's remaining steps.
- `Wrapper.dfy`: the C++ wrapper's `attach`, `detach`, `create`, `accept`, move assignment, `close` and destructor.

Masks and state bits are 32-bit words (`bv32`) with the values of `include/bal/platform.h`; `Decode` reads a word as a set of events.

## What the proofs show about the code

Some statements one might expect do not hold of the code. Each of these is proved with the exact condition under which it does.

- Freeing a registered socket while async I/O is down leaves the registry with a pointer to it, because `bal_destroy` consults the list only while the flag is set: `World.DestroySafety`. This can be fatal: `Witnesses.FaultIsReachable` is a history from the initial state in which a cleanup has lowered the flag, the event thread is still in its last pass, a callback frees another registered socket, and the next turn follows it. `Aftermath.FaultIsAhead` says exactly in which states of the thread that can still happen, and `Teardown.DisciplineIsExact` that the registry is safe at all times if and only if this one case is avoided. Making a new list puts an end to it: what was freed before no longer counts (`Teardown.SafeSinceListMade`).
- `bal_async_poll` can return true without registering the socket: when another socket is registered under the same descriptor, it changes the caller's mask and callback and leaves the list alone. `World.RegistrationIsEffective` is an equivalence, and `Witnesses.SuccessWithoutRegistration` a history that ends there.
- `bal_async_poll` tests the flag before it takes the mutex. A thread that is held up in between until the library has gone down and is coming up again registers a socket in the new list; if that socket is freed before the flag is raised, the registry dangles with the flag up (`Witnesses.LateSectionDangles`). If the section is reached while the flag is up it cannot happen (`Teardown.NoDanglingRegistration`), and neither does it while no registered socket is freed with the flag down, whenever sections come (`Teardown.DisciplineIsExact`).
- Freeing or deregistering a socket goes by its descriptor. A socket that was closed but kept takes another live socket off the list exactly when that one now has its descriptor (`World.DestroyHitsNamesake`, `World.DeregisterHitsNamesake`; a history: `Witnesses.NamesakeLosesRegistration`).
- After a CLOSE or INVALID the event thread removes whatever is registered under the descriptor once the callback has returned, also a new socket that the callback registered there. `Pass.EntrySurvivesReturn` says exactly which entries survive, and `Witnesses.ReplacementIsDropped` is a history in which a callback's successful registration does not.
- After a removal the list's iterator does not always go on where it was. If it stood on the removed entry it yields the entry before it again, or, at the front, nothing more. `SocketList.IteratorAfterRemove` gives all cases. The library itself always resets the iterator before it iterates.
- `bal_connect` leaks every address node it has allocated when memory runs out after the first one, and none otherwise (`Engine.Library.ConnectHost`).
- Move-assigning a wrapper to itself keeps its socket but resets its handlers, so it changes nothing exactly when they were the defaults (`Ownership.SelfMove`).

## Model

| member | source | states |
|---|---|---|
| Teardown.NoDanglingRegistration | src/bal.c:138-292 | Over any history of any number of threads from the initial state: whenever async I/O is up, keys are distinct valid descriptors, every registered value is a live socket with that descriptor and a callback, and the event thread has not followed a freed socket, however descriptors are reused, and also if threads are held up between the tests of bal_async_poll and its section as long as the flag is up |
| Machine.StepKeepsClean | src/balinternal.c:288-352 | No step of any thread and no re-entrant call leaves a registration dangling or makes the event thread follow a freed socket, provided no registered socket is freed while async I/O is down |
| Machine.RunKeepsClean | src/balinternal.c:288-352 | The same over every run, from any clean state |
| World.ApplyKeepsSafe | src/bal.c:138-292 | Every API function keeps keys distinct and values live with matching descriptor and callback |
| World.SectionKeepsSafe | src/bal.c:154-196 | The section of bal_async_poll under the mutex keeps the registry safe whenever it runs, whatever the flags are by then |
| World.DestroySafety | src/bal.c:260-292 | Freeing a socket keeps the registry safe if and only if async I/O is up or the socket is not registered |
| World.RegistrationIsEffective | src/bal.c:165-191 | A successful registration registers the socket if and only if no other socket is registered under its descriptor |
| World.DestroyHitsNamesake | src/bal.c:266-276 | While async I/O is up, freeing a socket leaves another registered one registered if and only if their descriptors differ |
| World.DeregisterHitsNamesake | src/bal.c:157-168 | The same for a deregistration, mask zero |
| Witnesses.FaultIsReachable | src/balinternal.c:84-104 | A history from the initial state in which the event thread follows a freed socket: after a cleanup has lowered the flag, a callback of the last pass frees another registered socket |
| Witnesses.SuccessWithoutRegistration | src/bal.c:170-177 | A history from the initial state after which bal_async_poll reports success for a socket and does not register it |
| Witnesses.NamesakeLosesRegistration | src/bal.c:266-276 | A history from the initial state after which freeing, or deregistering, an old closed socket takes a live registered one off the list |
| Witnesses.ReplacementIsDropped | src/balinternal.c:422-440 | A history from the initial state in which a callback successfully registers a new socket under the descriptor it was called for, and the list is empty after it returns |
| Witnesses.LateSectionDangles | src/bal.c:138-153 | A history in which a thread passes the tests of bal_async_poll, gets to the section two flag changes later, and the registry then dangles with async I/O up |
| Aftermath.FaultIsAhead | src/balinternal.c:288-352 | Over every history and whatever has been freed in it: while a cleanup waits with the flag down and `die` set, the event thread can still come to follow a freed socket if and only if one is registered under a descriptor and the thread is about to take a snapshot or has a turn left for that descriptor; calls from callbacks and other threads, late sections included, that free no further registered socket make no difference |
| Aftermath.RunKeepsDistinct | src/balinternal.c:298-313 | Over every run, disciplined or not, keys of the registry are distinct and so are the descriptors handed to poll() |
| World.RegisteredUnderOwnDescriptor | src/bal.c:260-276 | In a safe registry a socket is registered exactly when looking up its descriptor finds it |
| Machine.OnlyOwnerChangesRegistry | src/balinternal.c:295-347 | Apart from setting up and tearing down the list, the registry changes only by a call or step of the mutex's owner |
| Machine.SnapshotAsks | src/balinternal.c:298-313 | The array handed to poll() has, for every registered socket in order, its descriptor and exactly the flags that stand for its mask, one by one |
| Machine.LeavesWhenTold | src/balinternal.c:288-293 | The event thread leaves its loop in exactly those steps in which it tests `die` and finds it set |
| Pass.PassExactness | src/balinternal.c:296-340 | Whatever happens during the poll and in callbacks, a completed pass takes one turn per socket registered at the snapshot, in registration order and under distinct descriptors; a turn dispatches exactly when its descriptor is registered at that moment and has a nonzero event word, and to the value registered at that moment |
| Pass.TurnsAreExact | src/balinternal.c:322-335 | The same for every part of a pass, with at most one turn per polled descriptor |
| Pass.TwoTimeGating | src/balinternal.c:309-334 | If poll() reports only what was asked plus ERR, HUP and NVAL, a delivered READ, WRITE, OOBREAD, OOBWRITE or PRIORITY was in the mask registered under that descriptor at the snapshot and is in the receiving socket's mask at dispatch |
| Pass.TurnDelivers | src/balinternal.c:322-334 | A turn delivers to the socket now registered under its descriptor all that the translation yields, in one call, and stores its new mask and bits; there is no call exactly when the translation yields nothing |
| Pass.ReportIsDelivered | src/balinternal.c:314-334 | Whatever happens between poll() and the turn, what poll() reported for a slot is what the turn for that slot translates: nothing reported gets lost, moved to another slot or changed |
| Pass.ReportedIsHeard | src/balinternal.c:296-417 | From snapshot to callback, event by event: a socket that neither listens nor connects hears an event if and only if poll() reported a flag for it in its slot and the event is in its mask at the turn |
| Pass.OutcomeIsHeard | src/balinternal.c:194-214 | From snapshot to callback: a connecting socket that asks for WRITE hears CONNECT or CONNFAIL as soon as poll() reports it writable, and CONNFAIL if and only if it is also reported hung up or in error |
| Pass.ClosedLeavesRegistry | src/balinternal.c:419-440 | After CLOSE or INVALID has been polled and dispatched the descriptor is not in the list, whether no callback was made or the callback did nothing, deregistered, freed the socket, or registered another socket under that descriptor |
| Pass.EntrySurvivesReturn | src/balinternal.c:419-440 | An entry that is in the list when a callback returns, old or new, survives the return if and only if neither CLOSE nor INVALID had been polled or it is under another descriptor |
| Events.MaskRoundTrip | src/balinternal.c:216-281 | Mask to poll() flags and back is the identity on the pollable events (with CLOSE where POLLRDHUP exists) and loses exactly the others |
| Events.FlagsOfMask | src/balinternal.c:254-281 | Each flag is asked for if and only if its event is in the mask, and no other flag ever is |
| Events.EventsOfFlags | src/balinternal.c:216-252 | Each event is found in a report if and only if its flag is, CLOSE for POLLHUP and for POLLRDHUP where it exists |
| Events.NamedMasks | include/bal/platform.h:301-303 | BAL_EVT_ALL, BAL_EVT_CLIENT and BAL_EVT_NORMAL as sets of events, as their comments say |
| Events.NamedEvents | include/bal/platform.h:290-300 | The word of each event stands for that event |
| Events.PolledIsReported | src/balinternal.c:216-252 | An event is in the polled word if and only if a flag that stands for it was reported |
| Events.ReportWasRequested | src/balinternal.c:216-281 | A conforming report yields an on-request event only if the mask asked for it |
| Events.OutcomeExcludes | src/balinternal.c:194-214 | CONNECT and CONNFAIL exclude each other and both exclude READ and WRITE; CONNFAIL excludes ERROR; CONNECT excludes CLOSE and ERROR |
| Events.OutcomeDropsPending | src/balinternal.c:194-214 | The pending bit and WRITE interest are given up exactly when CONNECT or CONNFAIL is produced, and otherwise mask and bits are unchanged |
| Events.DeliveredWasWanted | src/balinternal.c:375-417 | An on-request event is produced only if it was reported and is in the socket's mask |
| Events.OrdinaryHears | src/balinternal.c:375-417 | A socket that neither listens nor connects hears exactly what was reported and is in its mask, with READ turned into CLOSE if the peer has gone, and stays as it is |
| Events.ListenerHears | src/balinternal.c:375-377 | A listening socket hears the same, with READ turned into ACCEPT |
| Events.ConnectingHears | src/balinternal.c:378-406 | A connecting socket hears an outcome if and only if READ or WRITE was reported and is in its mask: CONNFAIL if CLOSE or ERROR was reported, and then not ERROR, otherwise CONNECT; everything else is heard as usual |
| Events.ConnectingListenerHears | src/balinternal.c:375-406 | The same for a socket that does both, where READ means ACCEPT and only WRITE decides |
| Events.TranslationLeaves | src/balinternal.c:209-211 | The pending bit goes with an outcome and no other bit ever does; the descriptor is dropped if and only if CLOSE or INVALID was reported |
| SocketList.BalSocket.TranslateEvents | src/balinternal.c:361-420 | The step-by-step translation, which rewrites the events, the mask and the bits midway, computes the closed form of the entry values; its word is zero exactly when no event is to be delivered |
| SocketList.BalSocket.OnPendingConnIo | src/balinternal.c:194-214 | A pending connection fails if and only if CLOSE or ERROR is among the events; failure swallows ERROR; WRITE interest and the pending bit go |
| SocketList.BalSocket.TranslateRead | src/balinternal.c:375-395 | The readable branch: accept, connection outcome, close on platforms without POLLRDHUP, or read; its effect on mask, bits and the remaining events |
| SocketList.BalSocket.TranslateWrite | src/balinternal.c:400-406 | The writable branch on what the readable one left |
| SocketList.PartsAddUp | src/balinternal.c:375-417 | The branches, each on what the earlier ones left, together produce exactly the events of the closed form |
| Connections.OneOutcomePerConnect | src/bal.c:367-391 | Over every run: outcomes delivered to a socket, plus one if a connection is still pending, never exceed its successful connects (plus one if one was pending at the start) |
| Connections.NoIoBeforeOutcome | src/balinternal.c:375-402 | From the moment a connection is pending until its outcome is delivered or it is cancelled by closing or shutting down, no delivery to the socket carries READ or WRITE |
| Connections.SilenceAfterShutdown | src/bal.c:323-346 | After a successful shutdown of both directions no READ, WRITE, ACCEPT, CONNECT or CONNFAIL is delivered to the socket until a call puts READ or WRITE back in its mask |
| Connections.TouchedPending | src/bal.c:294-346 | Only a successful connect raises the pending bit; only a successful close or a shutdown of the sending side lowers it |
| World.ShutdownMutes | src/bal.c:331-340 | A shutdown of both directions leaves neither READ nor WRITE in the mask, and no shutdown puts one back |
| World.ConnectLeaves | src/bal.c:378-388 | An accepted connect adds WRITE to the mask and sets the pending bit, and changes no other event or bit |
| World.ListenLeaves | src/bal.c:513-528 | A successful listen adds READ to the mask and sets the listening bit, and changes no other |
| World.ShutdownLeaves | src/bal.c:331-340 | Each kind of shutdown takes its own interests and bits away and leaves the others |
| World.CloseLeaves | src/bal.c:306-315 | A successful close sets the closed bit, clears the pending and listening bits, and leaves the mask |
| World.MaskHelpersLeave | include/bal.h:129-141 | The mask helpers add and take exactly the events they are given |
| World.TouchesOnlyItsSocket | src/bal.c:294-346 | These calls change nothing but their own socket, never its descriptor or callback, and nothing at all when they fail |
| World.AsyncPollAnswers | src/bal.c:138-199 | Which answer bal_async_poll gives, as an equivalence for each; a call that fails changes nothing, except that a failed allocation leaves mask and callback set |
| World.AsyncPollEffect | src/bal.c:154-196 | After a successful registration the descriptor is registered and the mask and callback are in place; after a successful deregistration it is not; all other lookups and sockets stay |
| SocketList.BalList.Add | src/balinternal.c:472-492 | Appends to the sequence; a failed allocation leaves it unchanged |
| SocketList.BalList.Lookup | src/balinternal.c:494-504 | Finds the first entry with the key, or nothing |
| SocketList.BalList.Remove | src/balinternal.c:569-593 | Deletes the first entry with the key, returns its value, frees its node and no other, and moves the iterator as stated |
| SocketList.BalList.Iterate | src/balinternal.c:528-542 | Returns the entry under the iterator and moves on, or nothing at the end |
| SocketList.BalList.ResetIterator | src/balinternal.c:544-548 | Puts the iterator on the first entry |
| SocketList.BalList.Count | src/balinternal.c:511-526 | Returns the length of the sequence |
| SocketList.BalList.RemoveAll | src/balinternal.c:595-611 | Empties the sequence, frees every node, and leaves the iterator standing on freed memory |
| SocketList.BalList.DestroyNode | src/balinternal.c:626-641 | Links the neighbours to each other and frees the node |
| SocketList.BalList.Unlink | src/balinternal.c:577-586 | Taking a node out of the chain keeps the rest linked both ways in order, with head and iterator on live nodes |
| SocketList.DestroyList | src/balinternal.c:613-624 | Frees every node and the list itself, and clears the pointer |
| SocketList.GapCloses | src/balinternal.c:626-641 | A chain linked around a node is a chain of the remaining nodes |
| SocketList.IteratorAfterRemove | src/balinternal.c:577-583 | What the iterator yields next after a removal: the entry it stood on, the one before the removed entry again, or nothing |
| Engine.Library.AsyncPoll | src/bal.c:138-199 | Status, socket, registry and mutex after bal_async_poll, in every branch and error case |
| Engine.Library.PollSection | src/bal.c:151-198 | The section under the mutex, reached at any time after the tests, in every branch and error case |
| Engine.Library.Register | src/bal.c:170-191 | Updates the socket if its descriptor is registered, else registers it; what a failing mode change and a failed allocation leave behind |
| Engine.Library.Free | src/bal.c:286-287 | The socket is no longer live and its memory holds nothing |
| Engine.Library.Destroy | src/bal.c:260-292 | The socket leaves the registry while async I/O is up, and is freed, so that nothing can read it afterwards; the mutex is left as it was found |
| Engine.Library.Close | src/bal.c:294-321 | Marks the socket closed if closing succeeded, and frees it on request even if not |
| Engine.Library.CloseDescriptor | src/bal.c:294-315 | Sets the closed bit and withdraws the pending and listening bits exactly when closing succeeds |
| Engine.Library.Shutdown | src/bal.c:323-346 | Which interests and bits each kind of shutdown takes away |
| Engine.Library.Listen | src/bal.c:513-528 | READ interest and the listening bit are added exactly on success |
| Engine.Library.AddToMask | include/bal.h:129-134 | Adds to the mask of that socket only |
| Engine.Library.RemoveFromMask | include/bal.h:136-141 | Takes from the mask of that socket only |
| Engine.Library.Create | src/bal.c:201-225 | A new live socket with the given user data, or nothing changed |
| Engine.Library.Accept | src/bal.c:530-555 | A new live socket without user data, or nothing changed; a descriptor of zero counts as a failure |
| Engine.Library.TryAddresses | src/bal.c:371-388 | Addresses are tried in order, up to and including the first accepted one, or all of them; it terminates |
| Engine.Library.ConnectAddrList | src/bal.c:367-391 | The pending bit and WRITE interest are set exactly when an address was accepted |
| Engine.Library.ConnectHost | src/bal.c:348-365 | Succeeds if and only if the list of addresses could be built and connect() accepted one of them; all address nodes made on the way are freed again if and only if the socket was bad, memory sufficed, or not even the first node could be made |
| Engine.Library.Fill | src/balinternal.c:298-313 | The snapshot loop writes every slot of the array once, in bounds, with descriptor and poll() flags of the registered sockets in order |
| Engine.RecursiveMutex.Unlock | src/balinternal.c:682-689 | Only the owner unlocks, one level at a time; the mutex is free again when the outermost level is left |
| EventThread.EventPass | src/balinternal.c:288-352 | One round is a disciplined run of the machine from waiting for the mutex to the loop head, and leaves the mutex free as it found it; what the thread learns on the way is, in order, exactly the snapshot, poll()'s answer, and one turn for each registered socket |
| EventThread.EventLoop | src/balinternal.c:288-352 | Any number of rounds, with other threads at every point where the mutex is free, is a run of the machine; unless it finds `die` set the thread makes a full pass in each |
| EventThread.Poll | src/balinternal.c:314-320 | poll() can only be called with the mutex free; other threads do anything until it returns, and the polled array stays as it was |
| EventThread.TakeSnapshot | src/balinternal.c:295-317 | The array handed to poll() is the registry at that moment |
| EventThread.ServeTurn | src/balinternal.c:322-335 | One turn looks the descriptor up again and dispatches only to a live socket found there |
| EventThread.DispatchEvents | src/balinternal.c:361-441 | Translation, callback and removal are the machine's steps, whatever the callback does, including freeing the socket it was called for; as a socket can be read only while it is live, nothing is read through it after the callback |
| EventThread.StartDispatch | src/balinternal.c:361-423 | A callback is made exactly when an event is left and the socket has one, with the translated mask and bits already stored |
| EventThread.Interference | src/balinternal.c:314-320 | Any number of API calls and flag stores are steps of the machine and keep the registry safe: by other threads, with calls that need the mutex only where the event thread does not hold it, or from a callback, which is made only with the mutex held |
| Lifecycle.NextKeepsInv | src/bal.c:39-126 | Every statement of every thread inside bal_init and bal_cleanup, and every step of the engine, keeps the invariant that ties magic word, flags, list, event thread and counters together |
| Teardown.HistoryIsRun | src/balinternal.c:50-121 | What bal_init and bal_cleanup do to the engine are steps of the machine, so every history is a run of it: a thread is started only when there is none and joined only after it left its loop |
| Teardown.TeardownOrder | src/balinternal.c:50-121 | At most one event thread exists at a time; on the way up the thread is started before the flag is raised and the flag before the magic word; on the way down `die` is set before the flag is lowered, the flag before the join, and the list is freed only after the event thread has exited, before the magic word is cleared |
| Teardown.JoinWaitIsBounded | src/balinternal.c:84-104 | While a cleanup waits to join, the event thread takes at most as many further steps as the rest of its current pass needs, and two more for each late section of bal_async_poll |
| Teardown.StepSpendsBudget | src/balinternal.c:288-352 | With `die` set every step of the event thread uses up part of a bound that nothing but a late section of bal_async_poll can raise |
| Teardown.ThreadCanStep | src/balinternal.c:288-352 | The event thread has a next step if and only if there is one that has neither exited nor followed a freed socket |
| Teardown.DisciplineIsExact | src/bal.c:260-276 | Over every history, teardown and late sections of bal_async_poll included: the registry is safe in every state if and only if no registered socket is freed while async I/O is down |
| Teardown.SafeSinceListMade | src/balinternal.c:50-60 | From the moment a list is made, whatever was freed before and whatever comes after: the registry is safe in every state if and only if from then on no registered socket is freed while async I/O is down |
| Teardown.Accounting | src/bal.c:39-126 | Whenever the library mutex is free, magic word and async flag agree and successful inits minus successful cleanups is one if they are set and zero otherwise |
| Teardown.RacingCleanups | src/bal.c:93-126 | If the library was up and any cleanups ran past their sanity check with no init in between, exactly one of them succeeded |
| Startup.Process.Init | src/bal.c:39-91 | Succeeds if and only if the library was down and list and thread could be made, and then the list is new and empty; magic word and flag agree, the count of successes grows exactly on success, everything done is a history of the multi-threaded model, and the list holds the registry of that history |
| Startup.Process.Elapse | src/balinternal.c:288-352 | Whatever calls, callbacks and the event thread do, at any time and also inside bal_init and bal_cleanup: appending to and removing from the list as they do keeps it equal to the registry of the recorded history |
| Startup.Process.InitAsyncPoll | src/balinternal.c:50-82 | Which flags and which list each outcome leaves behind, in the source's order of statements |
| Startup.Process.StartThread | src/balinternal.c:69-78 | A started thread leaves the flag up and `die` clear, a failed start the reverse; the steps are taken in the source's order |
| Startup.Process.Cleanup | src/bal.c:93-126 | Succeeds if and only if the library was up; afterwards magic word and flag are down and the list is gone |
| Startup.Process.CleanupAsyncPoll | src/balinternal.c:84-121 | Fails and changes no flag when async I/O is already down; otherwise raises `die`, lowers the flag, joins, and only then frees the list; every node there was is freed by then |
| Startup.Process.FreeList | src/balinternal.c:104-117 | After the event thread is gone, the walk over the list meets exactly the sockets still registered, in order; their nodes and the list itself are freed |
| Startup.Process.JoinThread | src/balinternal.c:96-104 | With `die` set the event thread leaves its loop after finitely many of its own steps, whatever calls come in between that free no registered socket, and without following a freed one; what it removes on the way leaves the list, and the nodes are freed |
| AddressList.AddrList.Build | src/balinternal.c:787-809 | Success copies every address in order and resets the iterator; what a failed allocation or an empty input leaves |
| AddressList.AddrList.Enumerate | src/bal.c:949-963 | Returns the address under the iterator and moves on, or null once before it starts over |
| AddressList.EnumerationIsCyclic | src/bal.c:949-963 | After k calls from a reset the iterator of an n-element list stands at k modulo n + 1 |
| AddressList.AddrList.KthAfterReset | src/bal.c:937-963 | The k-th enumeration call after a reset returns element k modulo n + 1, and null at position n |
| AddressList.AddrList.FreeAll | src/bal.c:965-984 | Frees every node once and empties the list |
| Ownership.RoutingFollowsOwnership | include/bal.hh:319-348 | After any course of wrapper acts and background activity: a socket's events go to a wrapper if and only if that wrapper is alive and holds it, and to none if and only if none holds it |
| Ownership.DoKeepsRouted | include/bal.hh:246-348 | Construction, creation, accepting, attaching, detaching, move assignment, closing, destruction and raw calls each keep user data zero or equal to the one holder |
| Ownership.AttachKeepsRouted | include/bal.hh:319-333 | attach() takes user data from the former socket and gives it to the new one without making a second holder |
| Ownership.AssignKeepsRouted | include/bal.hh:283-302 | Move assignment keeps the link, also from the wrapper itself |
| Ownership.SelfMove | include/bal.hh:283-302 | Move assignment of a wrapper to itself resets its handlers and changes nothing else; it changes nothing at all if and only if they were the defaults |
| Ownership.DestructKeepsRouted | include/bal.hh:271-279 | A destroyed wrapper leaves no socket behind that points to it |
| Ownership.HoldersAfter | include/bal.hh:246-367 | Which wrapper holds which socket with which handlers after each act: move assignment moves socket and handlers and leaves the source empty with the default ones |
| Ownership.SocketsAfter | include/bal.hh:246-367 | Which sockets there are after each act |
| Ownership.GoneFromRegistry | include/bal.hh:271-279 | After a destroying close or the destructor the descriptor is not in the list, while async I/O is up |
| Ownership.ThreadIsBackground | src/balinternal.c:288-352 | Nothing the event thread or the start-up and shutdown code does changes which sockets exist or whom they belong to |
| Dispatch.ActIsCalls | include/bal.hh:271-365 | Whatever is done with wrappers, the library sees a sequence of its own API calls and user-data writes with the same effect |
| Dispatch.NoRouteToTheDead | include/bal.hh:271-365 | Between the calls and user-data writes of an act a socket's user data is zero, or names the wrapper that will hold it when the act is done, or the one that held it before and that this act makes give it up; never a wrapper that is not there |
| Dispatch.CallsAreHandlerSteps | include/bal.hh:718-729 | Calls made inside a callback while async I/O is up are steps of the machine |
| Dispatch.HandleIsCalls | include/bal.hh:744-808 | Whatever the handlers do, the library sees a sequence of API calls and user-data writes |
| Dispatch.EarlierIsRun | include/bal.hh:744-772 | What the handlers before on_close do is a run of the callback in the machine |
| Dispatch.HandlersRunInOrder | include/bal.hh:744-808 | Each handler runs at most once, only for a delivered event, in the fixed order |
| Dispatch.HandleInParts | include/bal.hh:744-808 | Going through the events stops at the first handler that declines, and otherwise goes on from the state the earlier handlers left |
| Dispatch.FirstHandlerRuns | include/bal.hh:744-808 | Of the delivered events that have handlers the first in the order is handled first; if its handler declines or destroys the wrapper that is all, and otherwise the later events are handled in the same way from the state it left |
| Dispatch.UnhandledIsIgnored | include/bal.hh:744-808 | If no delivered event has a handler nothing happens |
| Dispatch.OneEvent | include/bal.hh:744-808 | A single delivered event has its handler run, whichever of the eleven it is; what the handler does is all that happens, and its answer says how the handling ends |
| Dispatch.TwoEvents | include/bal.hh:744-808 | Of two delivered events with handlers the one with the lower bit is handled first, and the other only if the first handler agrees and leaves one for it |
| Dispatch.RankIsBitOrder | include/bal/platform.h:290-300 | The order of the handlers is the order of the event bits |
| Dispatch.DefaultHandlers | include/bal.hh:693-719 | With the default handlers, CLOSE and ERROR each close and free the socket and empty the wrapper, and all other events do nothing |
| Dispatch.DefaultClose | include/bal.hh:701-705 | The default on_close closes and frees the socket, empties the wrapper, and is the last handler to run |
| Dispatch.DefaultCloseEndToEnd | include/bal.hh:774-778 | When the event thread delivers CLOSE to a wrapper whose earlier handlers leave the socket open and whose on_close is the default: what those handlers did is a run of the callback, the rest of the callback is one close and one free of that socket, no later handler runs and the wrapper is left empty; whatever other threads do before, between and after, the socket is then gone, and once the callback has returned its descriptor is still in the list if and only if it was before, a cleanup lowered the flag ahead of the free, and the thread does not drop it by itself |
| Wrapper.SocketWrapper.Attach | include/bal.hh:319-333 | attach() is the act of that name, seen from any set of wrappers |
| Wrapper.SocketWrapper.Detach | include/bal.hh:335-339 | detach() empties the wrapper and clears the user data |
| Wrapper.SocketWrapper.Create | include/bal.hh:341-348 | create() gives up the socket held so far even when creation fails |
| Wrapper.SocketWrapper.Accept | include/bal.hh:447-463 | accept() empties the client first and attaches the new socket on success, also when listener and client are the same wrapper |
| Wrapper.SocketWrapper.Assign | include/bal.hh:283-302 | Move assignment moves socket and handlers, gives up the target's socket, and leaves the source empty with default handlers |
| Wrapper.SocketWrapper.Close | include/bal.hh:359-367 | close() frees the socket and empties the wrapper when asked to destroy; the freed socket is not read again |
| Wrapper.SocketWrapper.Destruct | include/bal.hh:271-279 | The destructor of a scoped socket deregisters, closes and frees it |

## Left out

- System calls, `getaddrinfo` and allocation: their outcomes are parameters or arbitrary choices. For `poll()` the theorems that need it assume that it reports only the requested flags plus ERR, HUP and NVAL (`poll()` in the System Interfaces volume of IEEE Std 1003.1-2017).
- The values of the poll() flags are those of one platform; only that they are distinct single bits matters.
- Windows branches, debug logging and debug assertions: the release build on POSIX systems is modelled, with and without POLLRDHUP.
- Data races on a socket's mask and bits: connect, listen, shutdown, close and the mask helpers change them without the mutex; each function's update is one atomic step here.
- Engine.Library.Close: runs its two steps, closing the descriptor and `bal_destroy`, without interruption. In `Machine` and in `EventThread` they are two steps with anything in between.
- bal_is_listening asks the system, so whether a socket listens is a parameter of each dispatch and not derived from the listening bit.
- Teardown.NoDanglingRegistration: promises nothing while async I/O is down, because a socket freed then stays in the list until the list is freed (`Witnesses.FaultIsReachable`), and nothing if a section of `bal_async_poll` is reached after the flag has gone down (`Witnesses.LateSectionDangles`). `Teardown.DisciplineIsExact` and `Teardown.SafeSinceListMade` cover both.
- Startup.Process.Init: runs without interruption by other inits and cleanups; those are interleaved in `Lifecycle`.
- Startup.Process.JoinThread: waits for a thread whose steps are those of the recorded history, and assumes that no registered socket is freed meanwhile (`Witnesses.FaultIsReachable` shows what happens otherwise).
- Startup.Process.Cleanup: runs without interruption in the same way; in `Lifecycle` its sanity check is a step of its own.
- Ownership.RoutingFollowsOwnership: takes each act as one step. attach() stores the new socket in the wrapper before it clears the former one's user data, so an event delivered in between still reaches a wrapper that has already given its socket up; `Dispatch.NoRouteToTheDead` says which wrapper that can be.
- Teardown.JoinWaitIsBounded: assumes that poll() and the callbacks return.
- Progress of the event thread after a second `bal_init` is not claimed: the thread is started before `die` is cleared and may leave at once. A failed init keeps its list allocated.
- EventThread.EventPass: does not repeat who owns the mutex where; that is what `EventThread.Poll`, `EventThread.Interference` and the list methods of `Engine.Library` require of their callers.
- EventThread.EventLoop: is stated for any finite number of rounds, since the source's loop has no bound.
- Handlers of the C++ wrapper are arbitrary functions from states to acts in `Dispatch`; the heap class has the ownership operations and not the handler loop. Acts of a handler that are not possible are not made; calls that other threads make while it runs are among its acts. A handler that destroys its wrapper and asks to go on is recorded as `Gone` and nothing is claimed after it.
- Wrapper uses that break the link: `create` with a host on a wrapper that holds a socket, attaching a socket that another wrapper holds, freeing a held socket behind the wrapper's back, and manual sockets, whose destructors leave user data behind. The move constructor names the deleted copy assignment and is not part of this model.
- Thin wrappers around system calls (options, send and receive, bind, readiness queries), address fields other than the address itself, error codes and messages, version strings, samples and tests: nothing beyond the calls they make.
