# relay_X: a Dafny model of the port-pairing gateway

relay_X joins a frontend (FE, "client") and a backend (BE, "server") that connect to the same
port and copies bytes between them. Its difficult parts are small pieces of state that several
goroutines change under mutexes. This project models those pieces and proves what every run of
them keeps.

How concurrency is modelled. A critical section is one atomic step. `RingBuffer.Write` gives the
lock up inside `cond.Wait`, so it is a sequence of steps (`RingModel.WritePass`). The port pool
has its own lock, so pool operations are steps of their own that may fall between any two steps
of the server. A run is a sequence of states in which neighbours are related by `Step`; the main
results hold in every state of every run. Time, new session IDs, what a socket delivers and
whether it fails are inputs.

Each object whose fields the program updates in place is a class; its methods are proved against
the functions of the state machine, so that what is proved of the machine holds of the object,
and says besides, field by field, what it does.

| file | part of the program |
|---|---|
| `Basics.dfy` | integers, options, lists, unordered iteration |
| `RingModel.dfy`, `RingBuffer.dfy`, `RingRuns.dfy`, `RingWaits.dfy` | the chunked FIFO, its chunk pool and its condition variable |
| `Pipe.dfy` | one direction of a `PipeSession`: two goroutines, a ring and `Stop` |
| `PipeEnd.dfy`, `PipeBytes.dfy`, `PipeAccounts.dfy` | what a destination receives once `Stop` has begun, the counters, and how the goroutines end |
| `SessionEnd.dfy`, `PipeSession.dfy` | the recorded cause, `Stop`, two rings on one pool |
| `PortPool.dfy`, `Pool.dfy` | the v4 port pool |
| `Pairing.dfy`, `PairingRuns.dfy`, `Admission.dfy`, `TcpServer.dfy` | the v4 pairing protocol |
| `Occupancy.dfy` | the pool operations the pairing server owes, and whether a running session keeps its port |
| `Grant.dfy`, `Hub.dfy` | `tryPairOnce` and the control hub's registry |
| `Reservations.dfy` | the v1 reservation manager |
| `Slot.dfy`, `Udp.dfy` | the v3 port slot, TCP and UDP |
| `Frames.dfy`, `FrameIO.dfy` | the video frame codec |
| `PortList.dfy` | the union of two port ranges |
| `MetricKeys.dfy`, `MetricScans.dfy`, `Metrics.dfy` | `itoa`, metric keys, the metrics scan |

## What the code does not do

Seven natural properties turned out to be false of the code. The code is modelled as it is, and for
each it is proved exactly when the property holds; for the first five a lemma gives a concrete run
on which it fails.

- A BE connection that `Stop` keeps open can receive bytes that do not follow the ones it had.
  `Stop` closes FE, and BE unless it keeps it, then flushes the rings, and only then closes them:
  a writer that was waiting inside `Write` can still put its bytes in between, and they reach the
  kept BE (`PipeEnd.KeptBECanSkipBytes`). Every other destination has a prefix of its source in
  every run (`PipeEnd.PrefixUnlessKept`). For a kept BE, a run delivers a prefix whatever the
  bytes are if and only if the ring was empty at the flush, or one of the goroutines gone, or
  nothing was delivered past what was flushed (`PipeBytes.PrefixExactly`).
- After `StopAll`, the stop callback of an old session can delete the entry of a new one, which
  then runs without the server knowing it (`PairingRuns.StopAllCanOrphan`). A running session's
  entry is its own if and only if neither `StopAll` nor another callback of its port came since it
  started (`PairingRuns.OwnUntilForgotten`).
- Both ends of a session need not have presented its session ID, because admission is checked
  outside the server's lock (`PairingRuns.ReReservationMixesEnds`). An end presented it if and
  only if the port was not reserved again in between (`PairingRuns.EndsPresentedTheID`).
- The port of a running session need not carry the session's ID in the pool. A session's callback
  deletes its entry first and releases the port later; in between, two more connections with the
  same ID can be joined, and the release then takes the port from under the new session
  (`Occupancy.LateReleaseTakesPort`). With the pool operations the program makes, and no expiry
  between the reading of an allocation and its marking, the port of a running session carries its
  ID if and only if no release has been carried out that was owed for this port and ID when the
  session was started (`Occupancy.PortIsKeptExactly`).
- `ResetPort` can lose a BE connection that the session's `Stop` decided to keep: it is neither
  closed nor pending (`Slot.ResetCanLoseBE`). A step loses a connection if and only if it is such
  a reset (`Slot.LosesExactlyOnReset`).
- `itoa` indexes below its array for large magnitudes and prints "-" for the smallest integer. This
  concerns the function alone: the program passes it port numbers, which are far inside. It gives a
  result that parses back to its argument if and only if that lies strictly between -10^15
  and 10^16 (`MetricKeys.Itoa`).
- A stream cut between a frame's header and its payload ends with the same error as a stream that
  ended cleanly; `Frames.PrefixFails` says exactly which cuts do.

## Model

| member | source | states |
|---|---|---|
| RingModel.PassAppends | v1/relay/buffer.go:54-99 | One pass of `Write` appends exactly the prefix it reports; it finishes, is refused or waits exactly when the input is empty, the ring is closed for writing, or the limit is reached, and then changes nothing; the size bound is kept |
| RingModel.PassContinues | v1/relay/buffer.go:52-101 | A pass within a call that has stored the input up to position `n`, from `start` on, extends the queue to position `n + w.n`; it finishes, is refused or waits exactly as the call must |
| RingModel.ReadTakes | v1/relay/buffer.go:105-172 | Bytes taken followed by bytes left are the old queue; a non-empty ring and destination give at least one byte; end of file is reported exactly for an empty half-closed ring |
| RingRuns.FifoStep | v1/relay/buffer.go:48-195 | Every step but flush and close keeps "read, then buffered, is written" |
| RingRuns.Fifo | v1/relay/buffer.go:48-195 | In every interleaving without flush or close, the bytes read followed by the bytes buffered are the bytes written |
| RingRuns.EndOfFileIsFinal | v1/relay/buffer.go:109-121 | Once `Read` reports end of file, everything written has been read, and no later step adds or removes anything |
| RingRuns.EndOfFileExactly | v1/relay/buffer.go:109-121 | In every run without flush or close, `Read` reports end of file exactly when the write side was closed and everything written has been read, waits exactly when it was not closed and nothing is buffered, and yields bytes otherwise |
| RingRuns.HalfClosedTakesNothing | v1/relay/buffer.go:58-60 | Once the write side is closed, `Write` is refused and nothing enters the ring |
| RingRuns.MemoryBound | v1/relay/buffer.go:62-93 | In every run, flushes and closes included, the ring holds at most max(0, maxSize + 32767) bytes, and k >= 2 chunks hold at least (k - 2) * 32768 + 2 bytes |
| RingRuns.BoundedRun | v1/relay/buffer.go:62-93 | The size bound is an invariant of every run |
| RingRuns.BoundIsTight | v1/relay/buffer.go:62-95 | The bound is reached by one pass with a full chunk |
| RingRuns.ClosedStaysEmpty | v1/relay/buffer.go:175-213 | After a close the ring stays closed, empty and without chunks; nothing more goes in or comes out |
| RingWaits.WakesWhenItMatters | v1/relay/buffer.go:97-202 | A lock section after which some waiting goroutine need not wait any longer broadcasts |
| RingWaits.FallsAsleepExactly | v1/relay/buffer.go:54-121 | A goroutine falls asleep exactly if it has bytes to write and the ring is open and full, or wants to read and the ring is open, not half-closed and empty; the others stay asleep exactly unless the section broadcasts |
| RingWaits.NoLostWakeUp | v1/relay/buffer.go:48-203 | In every run, a goroutine asleep on the ring would have to wait again: the ring is open and full for a writer, open, not half-closed and empty for a reader |
| RingWaits.NoDeadlock | v1/relay/buffer.go:54-121 | With a positive limit no writer and no reader are asleep on a ring at the same time |
| RingBuffers.BufferPool.GetBuffer | v1/common/memory.go:23-25 | The chunk comes out of the pool, or is newly allocated |
| RingBuffers.BufferPool.PutBuffer | v1/common/memory.go:30-35 | Arrays of at least a chunk go into the pool, others do not |
| RingBuffers.RingBuffer.constructor | v1/relay/buffer.go:39-45 | A new ring is empty, open, and has drawn no chunk |
| RingBuffers.RingBuffer.WritePass | v1/relay/buffer.go:54-99 | A pass over the real chunks does to the observable ring what the model says; chunks are only gained, from the pool or newly allocated |
| RingBuffers.RingBuffer.Write | v1/relay/buffer.go:48-102 | From taking the lock, or from waking up with `start` bytes stored, until it returns or waits, `Write` appends the input up to position `n`, the count of the whole call; it finishes exactly when all is in, fails only on a closed ring, waits only on a full open one |
| RingBuffers.RingBuffer.Fill | v1/relay/buffer.go:82-93 | Copying behind the write offset extends the stored queue by exactly the data |
| RingBuffers.RingBuffer.ReserveRoom | v1/relay/buffer.go:68-80 | A chunk is drawn exactly when there is none or the last is full, and the stored queue is unchanged |
| RingBuffers.RingBuffer.Read | v1/relay/buffer.go:105-172 | `Read` puts the model's bytes into the destination, leaves the rest of it alone, and gives back exactly the chunks it removes |
| RingBuffers.RingBuffer.Take | v1/relay/buffer.go:123-166 | Bytes come from the first chunk only; the chunk goes back to the pool exactly when it is read out; the remaining queue is still stored |
| RingBuffers.RingBuffer.DropFirst | v1/relay/buffer.go:157-166 | Exactly the first chunk is returned, once, and the stored queue does not change |
| RingBuffers.RingBuffer.Cleanup | v1/relay/buffer.go:205-213 | Every chunk is returned to the pool exactly once and the ring is empty |
| RingBuffers.RingBuffer.Close | v1/relay/buffer.go:175-186 | The first close empties the ring and returns its chunks; a second changes nothing |
| RingBuffers.RingBuffer.CloseWrite | v1/relay/buffer.go:189-195 | Only the write side is closed |
| RingBuffers.RingBuffer.Flush | v1/relay/buffer.go:198-203 | The buffered bytes are dropped and the flags stay as they are |
| Pipe.StepSound | v1/relay/pipe.go:89-207 | Every step keeps, until `Stop` begins: bytes read from the source are those delivered, in the sink's hand, in the ring and in the source's hand, in that order, and the counters agree; each goroutine holds at most one chunk |
| Pipe.RunSound | v1/relay/pipe.go:89-207 | The same in every run |
| Pipe.DeliversPrefix | v1/relay/pipe.go:130-207 | Until `Stop` begins the destination has a prefix of the source, ingress is egress plus the bytes in the ring and in hand, and the gap is at most the ring's bound and two chunks |
| PipeEnd.StepOneGap | v1/relay/pipe.go:89-207 | Every step, before and after `Stop`, keeps: what the destination has or will get is a prefix of the source's bytes without one flushed stretch, and until the ring is closed for writing nothing else is missing |
| PipeEnd.StepClosing | v1/relay/pipe.go:89-108 | Every step keeps: FE is open until `Stop` has closed it, BE until `Stop` has closed it unless it is kept, and past the flush a closed destination has nothing from behind the flushed stretch |
| PipeEnd.RunEnds | v1/relay/pipe.go:89-237 | Both hold in every run, and the decision to keep BE is the one that the recorded causes lead to |
| PipeEnd.PrefixUnlessKept | v1/relay/pipe.go:89-207 | In every run, before and after `Stop`, the destination has a prefix of the source's bytes unless it is a BE that `Stop` kept; BE is kept exactly if the first cause recorded before `Stop` decided was that FE left |
| PipeEnd.MissesAtMostOneStretch | v1/relay/pipe.go:102-108 | In every run, a kept BE included, the destination has the source's bytes in order with at most one stretch missing, which `Stop` flushed and which is no longer than a full ring |
| PipeEnd.HoleReachesKeptBE | v1/relay/pipe.go:97-108 | From every state with BE kept and open, a non-empty ring and a writer inside `Write` when `Stop` is about to flush, BE can receive that writer's bytes directly after what it had |
| PipeEnd.KeptBECanSkipBytes | v1/relay/pipe.go:97-108 | A run from the start in which FE is found gone, BE is kept, `a` and `b` are read and only `b` is delivered |
| PipeBytes.RunSame | v1/relay/pipe.go:89-207 | Runs that differ only in the values of the bytes read go through states that differ only in the values of the bytes |
| PipeBytes.PrefixExactly | v1/relay/pipe.go:89-207 | A run delivers a prefix whatever the bytes are if and only if the ring was empty at the flush, or a goroutine gone, or nothing was delivered past the flushed stretch |
| PipeAccounts.CountersExact | v1/relay/pipe.go:147-195 | In every run, before and after `Stop`, ingress is the number of bytes read and egress the number accepted, each but for the operation under way |
| PipeAccounts.ReadFailureDecides | v1/relay/pipe.go:155-169 | If the session's first failure is a failed read, it is recorded under its direction, and BE is kept exactly if the read was from FE and the error means FE is gone |
| PipeAccounts.WriteFailureDecides | v1/relay/pipe.go:188-193 | If it is a failed write, BE is kept exactly if the write was to FE and the error means FE is gone |
| PipeAccounts.LaterFailuresDoNot | v1/relay/pipe.go:209-215 | A later failure changes neither the cause nor the decision |
| PipeAccounts.NobodyWaitsAfterStop | v1/relay/pipe.go:103-108 | Once `Stop` is done, in every run, no goroutine can be waiting for the ring |
| PipeAccounts.SourceEnds | v1/relay/pipe.go:142-174 | After `Stop` the source goroutine leaves its loop within three steps of its own |
| PipeAccounts.SinkEnds | v1/relay/pipe.go:185-203 | After `Stop` the sink goroutine leaves its loop within three steps of its own, if a write under way fails |
| SessionEnd.FEClosedExactly | v1/relay/pipe.go:239-253 | FE counts as gone exactly for the end of input, a closed connection, or a message that says one of three texts, letter for letter in upper or lower case |
| SessionEnd.FirstCauseDecides | v1/relay/pipe.go:89-119 | After any sequence of causes and stops, BE is open exactly if no `Stop` came or the first cause recorded before the first `Stop` was that FE left; FE is closed by the first `Stop`; nothing later changes that |
| PipeSessions.PipeSession.RecordCause | v1/relay/pipe.go:209-215 | Only the first cause is kept |
| PipeSessions.PipeSession.ShouldKeepBE | v1/relay/pipe.go:217-253 | BE is kept exactly for a failed read from FE or a failed write to FE whose error is the end of input, a closed connection, or says one of three texts in any case; for every other direction, operation or error it is not |
| PipeSessions.PipeSession.Stop | v1/relay/pipe.go:89-120 | The first call closes FE, and BE unless the cause keeps it, leaves both rings empty, closed and half-closed, and returns every chunk of either to the pool once; a later call changes nothing |
| PipeSessions.PipeSession.constructor | v1/relay/pipe.go:47-64 | Two empty rings on one pool, both connections open |
| PipeSessions.CopyLoopPut | v1/relay/pipe.go:149-153 | Writing into one ring, at first or after a wait, keeps the two rings' chunks disjoint and leaves the other ring as it was |
| PipeSessions.CopyLoopTake | v1/relay/pipe.go:186-187 | Reading from one ring keeps the two rings' chunks disjoint and leaves the other ring as it was |
| PortPool.ApplyWellFormed | v4/ports/pool.go:73-265 | Every pool operation keeps: an allocation exists exactly on Reserved and Occupied ports and names its own port |
| PortPool.GrantIsSmallest | v4/ports/pool.go:73-94 | A reservation gets the smallest idle port; it fails only when none is idle |
| PortPool.OtherSessionsUntouched | v4/ports/pool.go:73-139 | An operation with a session ID changes neither state nor allocation of a port bound to another session |
| PortPool.ExpiryIsExact | v4/ports/pool.go:240-265 | Expiry frees exactly the overdue reservations; every other port, Occupied and Blocked ones included, keeps state and allocation |
| PortPool.GrantRecords | v4/ports/pool.go:81-91 | A grant stores exactly the session, server, client and time it was asked for, and touches no other port |
| PortPool.AllocationIsFixed | v4/ports/pool.go:73-265 | Until its port is granted anew, an allocation names the same session, server and client; only a renewal for its own session moves its time |
| PortPool.RunWellFormed | v4/ports/pool.go:73-265 | The allocation rule holds in every state of every run, and the port list never changes |
| PortPool.GrantsSeparated | v4/ports/pool.go:73-139 | Between two grants of the same port some step returned it to Idle |
| Pools.Pool.constructor | v4/ports/pool.go:46-60 | Exactly the ports of the range, all idle, no allocation |
| Pools.NewPool | v4/ports/pool.go:46-60 | There is a pool exactly for a valid range, with exactly its ports, all idle |
| Pools.Pool.Reserve | v4/ports/pool.go:73-94 | The smallest idle port is reserved, the very allocation returned is stored, and nothing else changes; it fails only if no port is idle |
| Pools.Pool.MarkOccupied | v4/ports/pool.go:102-114 | Succeeds exactly on a reserved port whose allocation names this session, and then changes that port's status alone; otherwise nothing |
| Pools.Pool.Release | v4/ports/pool.go:122-139 | Frees the port for its session or for the empty ID; an idle port is a success without change, an unknown port and a foreign session are errors without change |
| Pools.Pool.Block | v4/ports/pool.go:147-156 | A known port is blocked and loses its allocation |
| Pools.Pool.TouchReservation | v4/ports/pool.go:215-233 | Renews only a reservation of this very session |
| Pools.Pool.ReleaseExpiredReservations | v4/ports/pool.go:240-265 | The sweep, in any order, frees exactly the reservations held for longer than the limit or without a session ID, keeps the other allocations, and reports each freed allocation that has a session ID once |
| Pools.Pool.TakeSnapshot | v4/ports/pool.go:159-187 | The four lists are increasing, hold exactly the ports of each status, and together count every port |
| Pairing.StepExclusive | v4/relay/tcp_server.go:121-263 | Every step keeps: a port with a session has nothing pending, and each connection is filed under its own port and role |
| Pairing.StepFiled | v4/relay/tcp_server.go:121-263 | Every step keeps: the maps hold only connections that have arrived and are no longer on their way |
| Pairing.StepPursued | v4/relay/tcp_server.go:165-182 | Every step keeps: where both ends wait, a spawned `tryPair` has still to run |
| Pairing.StepOwnEnds | v4/relay/tcp_server.go:85-263 | Every step keeps: the ends of each running session, filed or forgotten, are its own, have arrived, and are neither on their way nor pending; every filed session is running |
| Pairing.RunKeeps | v4/relay/tcp_server.go:85-276 | The four invariants hold in every state of every run, `StopAll` included |
| Pairing.OnePlaceEach | v4/relay/tcp_server.go:85-263 | In every reachable state, after `StopAll` too, a session's port has no pending end, every filed session is running, and no connection is in two of: on its way, pending server, pending client, a running session; no two running sessions share an end |
| Pairing.NoLostPairing | v4/relay/tcp_server.go:165-245 | Once every spawned `tryPair` has run, no port has both ends waiting |
| Pairing.MaintainedIsDrops | v4/relay/tcp_server.go:201-223 | One round of `maintainPending` is a row of the drop steps of the machine, one for each pending port |
| Admission.NoConnectionLost | v4/relay/tcp_server.go:143-263 | In every run each admitted connection is on its way, pending, an end of a session ever started, or closed in a named step, and never both kept and closed |
| Admission.PendingStays | v4/relay/tcp_server.go:158-183 | A pending end stays in its place until a step closes it or pairs it; in particular an entering connection never displaces it |
| PairingRuns.RunOwnEntries | v4/relay/tcp_server.go:226-263 | In runs without `StopAll` the running sessions are exactly the filed ones |
| PairingRuns.FinishDeletesOwn | v4/relay/tcp_server.go:253-262 | In runs without `StopAll` the entry a finishing session deletes is its own, and no other is touched |
| PairingRuns.OwnUntilForgotten | v4/relay/tcp_server.go:85-262 | In every run, `StopAll` included, the entry under a running session's port is its own if and only if neither `StopAll` nor the callback of another session of the port came since it started |
| PairingRuns.StopAllCanOrphan | v4/relay/tcp_server.go:85-104 | With `StopAll`, a reachable state has a running session that the server has forgotten |
| PairingRuns.RunDated | v4/relay/tcp_server.go:143-151 | In every run each admitted connection presented the session ID its port was reserved for at its admission check, and each session carries the ID its port had at pairing |
| PairingRuns.EndsPresentedTheID | v4/relay/tcp_server.go:143-248 | An end of a session presented the session's ID if and only if its port was not reserved anew between its admission check and the pairing |
| PairingRuns.ReReservationMixesEnds | v4/relay/tcp_server.go:143-151 | A reachable session whose backend presented another session ID |
| Occupancy.IsServerRun | v4/relay/tcp_server.go:241-257 | A run with the owed pool operations as steps of their own is a run of the pairing machine, so what is proved there holds |
| Occupancy.RunKept | v4/relay/tcp_server.go:241-257 | In every run, a running session's port that carries its ID is occupied once it is marked, and every running session was started under a non-empty ID its port was reserved for |
| Occupancy.CarriesUntilTaken | v4/relay/tcp_server.go:241-257 | The port of a running session carries its ID if and only if, since its start, nothing has taken the port: no block, no release for the ID or for none, no expiry of a reservation not yet marked |
| Occupancy.PortIsKeptExactly | v4/relay/tcp_server.go:241-257 | With the pool operations the program makes and no expiry before the marking, it does so if and only if no release has been carried out that was owed for this port and ID when the session was started; with none owed it always does |
| Occupancy.LateReleaseTakesPort | v4/relay/tcp_server.go:253-257 | A reachable state in which a running, filed session's port is idle, because the callback of the session before it released the port late |
| TcpServers.TcpServer.HandleConn | v4/relay/tcp_server.go:143-186 | A connection is parked, and a `tryPair` spawned, exactly if the allocation names its session ID, the port has no session and its role's place is free; a taken place keeps its connection, and nothing else changes |
| TcpServers.TcpServer.TryPair | v4/relay/tcp_server.go:226-263 | Where both ends wait and there is no session, both leave; if the port has an allocation a session with the allocation's ID, FE the client and BE the server is filed and the port is occupied; otherwise nothing changes |
| TcpServers.TcpServer.SessionStopped | v4/relay/tcp_server.go:253-257 | The entry under the port is deleted and the port released for the session's ID |
| TcpServers.TcpServer.MaintainPending | v4/relay/tcp_server.go:201-223 | In any order, exactly the pending ends whose port has no allocation are dropped, and exactly the named reservations of the other pending ports get the new time |
| TcpServers.TcpServer.StopAll | v4/relay/tcp_server.go:85-104 | All three maps are empty afterwards; exactly the pending connections are closed and exactly the filed sessions stopped |
| Grant.LessIsPrecedes | v4/control/server.go:377 | The order of IDs is the usual one: a proper prefix, or the smaller character where two strings first differ |
| Grant.First | v4/control/server.go:373-380 | Every other candidate has less capacity left, or as much and an ID that comes later |
| Grant.ChoiceIsUnique | v4/control/server.go:373-380 | The choice depends on the set of candidates only; it has the most capacity left, and among those the ID that comes first in the usual order |
| Grant.PoolOccupiedPorts | v4/control/server.go:577-587 | The increasing list of exactly the ports this server occupies |
| Grant.CollectCandidates | v4/control/server.go:341-369 | In any map order, exactly the wanted servers with capacity left, each once |
| Grant.ReserveThenRelease | v4/control/server.go:391-397 | Releasing what was just reserved restores the pool exactly |
| Grant.GrantThenOccupied | v4/control/server.go:363-364 | A port reserved for a server and then marked occupied counts for that server, which has one place less, and for no other |
| Grant.TryPairOnce | v4/control/server.go:340-416 | Unavailable exactly if no wanted server has capacity left or an asked-for pool has no idle port, a bad request exactly if nothing is asked for although a server could serve, and then both pools are as they were; otherwise the chosen server has the smallest idle port of each pool asked for, and the grant carries the IDs, tokens and ports |
| Grant.StepAccounted | v4/control/server.go:383-404 | Every step, of the attempt or of others, keeps: only the remembered port can carry the new session ID, and none once the attempt has failed |
| Grant.RunAccounted | v4/control/server.go:383-404 | The same in every state of every run in which other goroutines use the pools |
| Grant.AllOrNothing | v4/control/server.go:383-404 | When an attempt has failed, no port of either pool carries its session ID, however other pool steps interleaved |
| Grant.ExactlyOneGrant | v4/control/server.go:383-415 | When an attempt has succeeded, however others used the pools meanwhile, each pool asked for has granted exactly one port for its session ID, the one it reports, and the other pool none |
| Hub.IndexedMore | v4/control/server.go:247-258 | Entering a new peer keeps the three registry maps describing one set |
| Hub.IndexedFewer | v4/control/server.go:264-277 | The role map's entry is the leaving peer's own, and removing it keeps the three maps in step |
| Hub.Registry.ValidateAndRegister | v4/control/server.go:230-261 | Each refusal comes exactly in its case, in the order of the checks; a peer is registered exactly if its credentials are complete, its role known, there is room, and no registered peer of its role has its ID; a refusal leaves the registry alone; the limit is never exceeded |
| Hub.Departs | v4/control/server.go:264-277 | Taking out what is stored for a peer keeps the three maps in step; a peer that is not registered has nothing stored |
| Hub.Registry.Unregister | v4/control/server.go:264-277 | A registered peer leaves every map and no other peer does; for a peer that is gone already nothing changes |
| Reservations.Lifetime | v1/control/port_manager.go:79-82 | The lifetime is positive for every requested TTL, and is the TTL itself whenever the 64-bit product does not overflow |
| Reservations.LifetimeExactly | v1/control/port_manager.go:79-82 | For every requested TTL: the 64-bit product if that is positive, and 30 s otherwise |
| Reservations.IndexesDetermined | v1/control/port_manager.go:68-338 | The by-session index determines the other two, so the three describe the same reservations |
| Reservations.DeleteConsistent | v1/control/port_manager.go:324-338 | Deleting one reservation keeps the indexes in step, with no empty owner entry |
| Reservations.InsertConsistent | v1/control/port_manager.go:106-134 | Filing one reservation keeps the indexes in step |
| Reservations.PortManager.DeleteReservation | v1/control/port_manager.go:324-338 | Exactly this reservation and its port disappear |
| Reservations.PortManager.Sweep | v1/control/port_manager.go:313-322 | Deleting while iterating in any order keeps exactly the reservations without a deadline or whose deadline is not strictly past, unchanged |
| Reservations.GrantHolds | v1/control/port_manager.go:68-338 | In every run of operations, a granted reservation stands until its own, its owner's or its port's release, or until an operation after its deadline |
| Reservations.NoDoubleGrant | v1/control/port_manager.go:84-135 | Two grants of one port are separated by such an operation |
| Reservations.PortManager.PickFreePort | v1/control/port_manager.go:287-301 | The first positive unreserved port that is not busy, or none if the list has none |
| Reservations.PortManager.Acquire | v1/control/port_manager.go:68-135 | A bad request changes nothing; otherwise the expired reservations go, the first grantable port of the requested list is reserved until now + TTL, and it fails only if every positive port there is busy or held by a live reservation |
| Reservations.PortManager.AcquireFromReady | v1/control/port_manager.go:137-228 | The same for the list of ports on which one end already waits |
| Reservations.PortManager.Release | v1/control/port_manager.go:230-243 | Succeeds exactly for the owner of an existing reservation, which alone disappears |
| Reservations.PortManager.ReleaseAllForOwner | v1/control/port_manager.go:245-266 | Exactly the owner's reservations disappear, their number is returned, and the owner has no entry left |
| Reservations.PortManager.ReleaseByPort | v1/control/port_manager.go:268-285 | Exactly the reservation holding the port disappears |
| Slot.StepAgrees | v3/relay/server.go:217-332 | Every step keeps busy and session in agreement, nothing pending while busy, and never both ends pending |
| Slot.StepSessions | v3/relay/server.go:136-332 | Every step keeps: only the slot's session can be unstopped, and a stopped session's FE, and its BE unless kept, is closed |
| Slot.StepOpen | v3/relay/server.go:136-332 | Every step keeps: pending and routed connections are open and distinct, and a kept BE stays open |
| Slot.RunInv | v3/relay/server.go:136-332 | The slot's invariants hold in every state of every run with one accept loop |
| Slot.SlotAgrees | v3/relay/server.go:217-332 | In every reachable state: busy exactly with a session, nothing pending while busy, never both pending, so the third inference branch is not taken |
| Slot.StaleStaysStale | v3/relay/server.go:303-326 | A session that is no longer the slot's never becomes it again, and its `onStop` leaves the slot alone |
| Slot.PendingIsOpen | v3/relay/server.go:303-326 | A pending connection, a re-parked BE included, has not been closed by the server |
| Slot.KeptBEIsReparked | v3/relay/server.go:303-326 | When the slot's stopped session ends, the slot is free and a kept BE is pending and open |
| Slot.LosesExactlyOnReset | v3/relay/server.go:136-172 | A step leaves an accepted connection neither closed nor looked after if and only if it resets a session whose `Stop` keeps BE |
| Slot.ClosesExactly | v3/relay/server.go:136-332 | Which connections each step closes: a refused one, FE and an unkept BE of a stopped session, what a reset finds, and the one pending end that a probe found dead |
| Slot.RunLosesNothing | v3/relay/server.go:136-332 | In every run without such a reset every accepted connection is closed or looked after |
| Slot.ResetCanLoseBE | v3/relay/server.go:145-160 | A run after which the kept BE is neither closed nor pending, and the session's `onStop` does not change that |
| Slot.PortSlot.DecideRole | v3/relay/server.go:217-240 | A busy slot refuses; otherwise an explicit role is taken, and without one BE exactly if no BE is pending |
| Slot.PortSlot.RouteConn | v3/relay/server.go:244-301 | A second connection for a role is refused; a first one is parked if the other end is missing, and otherwise paired with it, each in its own role |
| Slot.PortSlot.SessionEnded | v3/relay/server.go:303-326 | Only the slot's own session changes it; a kept BE is parked if no other is |
| Slot.PortSlot.ResetPort | v3/relay/server.go:136-172 | The slot is free afterwards, and what it held is handed out for closing |
| Udp.EqualIsCanonical | v3/relay/server.go:582-599 | Address equality is equality of canonical spellings, hence an equivalence |
| Udp.StepTwoPeers | v3/relay/server.go:342-409 | A step keeps "B only with A, and different" if and only if it does not bind twice, with a datagram that is not empty, a sender without an IP, which `ReadFromUDP` does not deliver |
| Udp.RunTwoPeers | v3/relay/server.go:342-451 | In every run of the datagram loop B is bound only while A is, and they differ |
| Udp.MissingIPBindsTwice | v3/relay/server.go:582-608 | A remark on the pair of helpers: the copy of an address without an IP does not equal the address, so the binding rule relies on senders having IPs |
| Udp.RelaysExactly | v3/relay/server.go:350-407 | While two peers are bound, each is sent exactly the datagrams received from the other since, in order, empty ones excepted, which line 350 drops |
| Udp.OnlyBetweenPeers | v3/relay/server.go:350-407 | Whatever is sent is not empty and goes from one bound peer to the other; nothing of a third party is passed on |
| Udp.Peers.Receive | v3/relay/server.go:350-407 | One datagram is dropped if it is empty, and otherwise binds its sender or is relayed as the binding machine says |
| Udp.Peers.SweepIdle | v3/relay/server.go:428-445 | A lone A is unbound exactly if it is idle; two peers exactly if both are; otherwise nothing changes |
| Udp.Peers.Reset | v3/relay/server.go:162-165 | A reset unbinds both peers |
| Frames.RoundTrip | v4/testing/video/proto.go:39-212 | Every acceptable frame is read back exactly, signed timestamps included, whatever follows it |
| Frames.WireLayout | v4/testing/video/proto.go:43-72 | The bytes themselves: magic 56 34 56 54, version one, kind, two reserved bytes, then number, three two's complement timestamps, checksum and length, all most significant byte first, then the payload |
| Frames.RefusedExactly | v4/testing/video/proto.go:161-202 | Which error a reader gives for which bytes, in the order of the checks |
| Frames.OnlyEncodings | v4/testing/video/proto.go:161-212 | Whatever the reader accepts was the encoding of the frame it returns (up to two reserved bytes), followed by what is left |
| Frames.PrefixFails | v4/testing/video/proto.go:161-198 | Every strict prefix of an encoding is refused and used up; the error is end of input exactly for an empty prefix and for a cut after the header |
| Frames.TakenOnlyWhole | v4/testing/video/proto.go:65-72 | Of what a failing writer may leave behind, a reader takes the whole frame and nothing less |
| Frames.StreamRoundTrip | v4/testing/video/proto.go:39-212 | Decoding encoded frames followed by any bytes yields the frames, then whatever those bytes yield |
| Frames.CutStream | v4/testing/video/proto.go:161-212 | A stream cut anywhere in its last frame yields exactly the frames before it, then an error |
| Frames.WholeStream | v4/testing/video/proto.go:39-212 | Decoding the concatenated encodings of any list of frames returns exactly that list with nothing left over |
| FrameIO.MakeHeader | v4/testing/video/proto.go:43-63 | Filling the zeroed array at a moving offset yields the 48-byte header |
| FrameIO.WriteDataFrame | v4/testing/video/proto.go:39-73 | An oversized payload writes nothing; otherwise the encoding of the data frame is written as far as the writer accepts it |
| FrameIO.WriteEchoFrame | v4/testing/video/proto.go:75-109 | The same for the echo frame with its three timestamps |
| FrameIO.WritePingFrame | v4/testing/video/proto.go:111-134 | The same for the ping frame, which has no payload and no checksum |
| FrameIO.WritePongFrame | v4/testing/video/proto.go:136-159 | The same for the pong frame |
| FrameIO.ReadFrame | v4/testing/video/proto.go:161-212 | The reader returns and consumes exactly what decoding the input says, errors included |
| PortList.Compact | v3/control/port_manager.go:210-218 | Writing into the array that is being read leaves, in front, exactly the elements that differ from their predecessor |
| PortList.CompactedIncreases | v3/control/port_manager.go:209-218 | Of a sorted list these elements are strictly increasing and are all of its elements |
| PortList.DedupInts | v3/control/port_manager.go:205-219 | The front of the array is strictly increasing and has the elements of the original array |
| PortList.IncreasingIsUnique | v3/control/port_manager.go:205-219 | A strictly increasing list is determined by its elements, so the result is unique |
| PortList.UnionPortsFromRanges | v3/control/port_manager.go:180-193 | A strictly increasing list of exactly the ports of the two valid ranges |
| MetricKeys.Itoa | v4/relay/manager.go:224-244 | Stays inside its 16-byte array if and only if the integer is the smallest one or lies strictly between -10^15 and 10^16; it gives a result that parses back to the integer if and only if the latter holds |
| MetricKeys.FitsIsLength | v4/relay/manager.go:232-242 | That range is exactly where the decimal form has at most sixteen characters |
| MetricKeys.ParseDecimal | v4/relay/manager.go:224-244 | Every integer but the smallest parses back to itself, and no colon is printed |
| MetricKeys.KeyInjective | v4/relay/manager.go:137-160 | Metric keys are injective in session, kind and port, for all session IDs, colons included |
| MetricKeys.KeySpelled | v4/relay/manager.go:137-160 | The session ID, ":zmq:" or ":srt:", the port in decimal |
| MetricScans.ScannedExactly | v4/relay/manager.go:130-167 | A scan yields one entry per session and no other, each with its own session's ID, ends, port and growth in and out |
| Metrics.KeysDiffer | v4/relay/manager.go:135-162 | No two entries of a scan have the same key |
| Metrics.Manager.UpdateMetrics | v4/relay/manager.go:130-167 | The metrics afterwards are those of this scan, each with its session's IDs, port and byte growth, and the remembered counters are updated for its sessions only |
| MetricScans.ReportsAddUp | v4/relay/manager.go:138-141 | In every run of scans, whatever other sessions come and go, the figures reported for a key add up to the growth of its counters |
| Metrics.ReportedIsTotal | v4/relay/manager.go:129-167 | Over successive updates of a manager, the bytes in and the bytes out reported for a session add up to what it had counted when it was last scanned |

## Left out

- Sockets, listeners, deadlines, goroutine start-up, logging, JSON, YAML and the HTTP status page: what they deliver is an input, how they do it is not modelled.
- gosrt, `crypto/rand` and the internals of `sync.Pool`: a pool is a set of free chunks, and new session IDs are assumed fresh.
- The CRC-32 function: the codec is proved for every function of the payload.
- `sort.Ints` and `sort.Slice`: taken by their contract; the candidate list is not sorted, its first element in sort order is found.
- Condition variables: in the machines of the ring and the pipe a wait ends a step, and the step may be taken again at any time; that no wake-up is lost is proved apart, in `RingWaits.dfy`. Fairness of the scheduler is not modelled.
- The accept, copy, datagram and sweep loops run as events of a state machine, so that other goroutines' steps can fall between theirs.
- BufferPool.PutBuffer: requires that the chunk is not in the pool already; the ring is proved to meet this.
- PipeSession.Stop: one call with no step of another goroutine between its operations on the rings; those steps are in the machine of `Pipe.dfy`, one direction at a time, where the other direction appears through the causes it records and the `Stop` it begins.
- PortSlot.ResetPort: hands out the session and the pending ends; that they are stopped and closed in the same critical section is in the slot machine's reset step.
- TcpServer.StopAll: listeners are not modelled.
- The v2 and v3 ring buffers and pipes and the v2 port manager: near-copies of the v1 code modelled here; of the v3 pipe only what its `Stop` closes is used.
- `v4/relay/srt_server.go`: the pairing protocol of the TCP server with another connection type.
- The copying loop of the v4 `Session`: it has no buffer between its ends; of the session only the once-only stop callback is used.
- The slots of the v1 and v2 relay servers: their stop callback does not check which session it belongs to, so the agreement proved for v3 does not hold there.
- Starting and stopping a v3 port: the slot is modelled with one accept loop per port. Client IDs and state-change callbacks of the slot are left out.
- The v3 port manager's reservations: check and reserve are separate critical sections there; only its list functions are modelled.
- `MaxConn` of a server: the code counts occupied ports only, so nothing is claimed about reserved ones.
- The reapers, `pairLoop`, telemetry and status broadcasts.
- Floating-point figures: quality scores, rates and CPU sampling. Metric rates appear as the byte counts they come from.
- Manager.UpdateMetrics: rates, quality and time stamps of an entry are left out, being floating point and clock readings.
- Pool.constructor: takes a valid range; the error for an invalid one is in `Pools.NewPool`.
- UnionPortsFromRanges: integers are unbounded; a range ending at the largest machine integer would make the source's loop counter wrap.
