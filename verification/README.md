# Verification of three distributed protocols

A Dafny model of three programs of the repository, and proofs about every run of each.

* **LSP** (`project-2/src/example.com/lsp`), a sliding-window transport over a network that drops,
  duplicates, reorders and shortens packets. `LspMachine` is one endpoint: a function `Act` with one
  case per branch of the select loops of `client.handler` and `clientInfo.handleClient`, and `Sent`, the
  packets which that branch writes. `LspSystem` puts any number of clients, a server with its connection
  table and sessions, and the network together; a run is a list of steps in which every choice of the
  scheduler and of the network is written down. `LspSafety` has the invariant and `LspTheorems` what it
  gives the readers; `LspSources` has the promises to clients, who take data from any session of their
  address. `LspOrder` and `LspRivals` say exactly when a client is sure to read one session's payloads in
  order for ever. `LspProgress` shows that no reachable state is stuck, and which client never connects;
  `LspFindings` says where the code does less than its documentation, `LspClosing` exactly when both
  ends can still close gracefully, `LspExits` exactly when one can, and `LspCloseConn` exactly when a
  connection closed by `CloseConn` can. `LspEpochs` says exactly when a handler gives up, what an epoch
  writes and how the window slides; `LspTable` which connect requests are accepted. `LspHandler` has the
  same branches as methods that update fields in place, each proved equal to `Act` and `Sent`, so that
  what is proved about runs is about them.
* **MapReduce** (`project-3`). `MapReduceSplit` cuts the input (`MapReduceChunks` counts the files),
  `MapReduceJobs` is what a map job, a reduce job and the merge write, `MapReduceFiles` the loops that
  write it; the specification is a group-by of one line. `JobPool`, `MapReduceMaster` and
  `MapReduceWorkers` are the master with failing workers, whose runs are proved to produce what the
  sequential program produces; `MapReduceReturns` says from which states the master can still return,
  `MapReduceOrder` in which order jobs are handed out and what follows a failed call. `WordCount` takes
  `wc.go` through the whole pipeline.
* **Bitcoin mining** (`project-2/src/example.com/bitcoin`). `BitcoinRanges` is the arithmetic of the server's
  split and of the miner, and `BitcoinCoverage` says which nonces that leaves out;
  `BitcoinScheduler` is the server's event loop as functions, `BitcoinServer` the same as methods on fields;
  `BitcoinSafety` has its invariant, `BitcoinTheorems` what clients may rely on, `BitcoinAnswers` when
  an answer is the minimum, `BitcoinProgress` that everybody can still be answered, and `BitcoinOrder`
  that requests and idle miners are served in their order.

`Collections` and `Sorting` hold general facts. A history (`written`, `read`, `mapFinished`, `hist`, ...) is a
field that only the proofs look at: no branch of the program depends on it.

The classes follow the program's fields. Each method's `ensures` gives its whole new state, as the
specification function of the old one; the theorems are about runs of those functions.

## Where the code and its documentation differ

The code is followed.

* `client_api.go:24` says that Close blocks until pending messages are acknowledged. One duplicate of a
  message already read stays in `rbuffer` for ever, and then the handler never returns gracefully
  (`LspFindings.StaleIffDuplicate`, `ClientStaleForEver`, `SessionStaleForEver`, with runs for both sides).
  For one end alone nothing else stands in the way (`LspExits.ClientCanExitIffNothingStale`,
  `SessionCanExitIffNothingStale`). For both of them a lost ack does, as only a repetition brings another:
  `LspClosing.BothCanExitIffClosable`.
* `server_api.go:24-27` says that after CloseConn all pending messages are sent and acknowledged. But the
  connection leaves the table, to which all packets are routed, so no ack can reach it any more: a message
  that is pending then is never acknowledged and the handler retransmits until it gives up
  (`LspCloseConn.CloseConnAbandonsMessage`). `LspCloseConn.CloseConnFinishesIff` is exact.
* A client ignores the connection identifier of what it receives, so another session of its address can
  get payloads in (`LspFindings.SecondSessionIsReadAsTheFirst`). The order of its own session is sure for
  ever iff the state is settled: `LspRivals.InOrderForEverIffSettled`. Past the first `windows` messages it
  stays right once it is (`LspOrder.PastTheWindow`), as the other session is never acknowledged.
* `NewClient` is documented to return an error after K epochs without an ack. The handler returns without a
  signal, and `NewClient` waits on: `LspProgress.GivesUp` and `GivenUpForEver`; a waiting client with an
  epoch left can still be connected iff that has not happened, `ConnectsIffNotGivenUp`.
* `Split` opens exactly `nMap` files when lines are short against the chunks, but not with carriage
  returns, which the scanner drops: `MapReduceSplit.CarriageReturnsFallShort`. `ExactlyNMapIff` is exact
  for every text.
* An answer need not be the minimum over `[0, upper]`, as the miner does not search the remainder of a
  piece: `BitcoinAnswers.LastNonceIsMissed`. `BitcoinCoverage.AllSearchedIff` and
  `BitcoinAnswers.MinimumIffSmallRests` are exact.
* `RunMaster` is to run until all jobs are done. If a worker leaves because the reduce queue is empty for a
  moment, and the last one then fails, it waits until another registers: `MapReduceReturns.LastWorkerIsLost`;
  `ReturnsAloneIff` and `ReturnsIff` are exact.
* With clients lost, the scheduler can stop with work queued and a miner idle:
  `BitcoinTheorems.StallsAfterALoss`; `StallsExactlyWhen` names the steps that do it.

## Model

| member | source | states |
|---|---|---|
| LspTheorems.ServerReadsPrefix | project-2/src/example.com/lsp/server_impl.go:253-283 | in every run and for every session, what was handed to Read is exactly the first `rsq - 1` payloads its client wrote, in order, each once; nothing if no client adopted the session |
| LspTheorems.ReceivedAsItIs | project-2/src/example.com/lsp/client_impl.go:172-192 | a complete message with a new number is the next one handed over, or is parked under its number, uncut |
| LspTheorems.FirstComeStays | project-2/src/example.com/lsp/client_impl.go:175-191 | what is parked under a number stays until it is handed over in its place; a second payload with that number does not replace it |
| LspTheorems.ShortenedIsIgnored | project-2/src/example.com/lsp/client_impl.go:172-174 | a shortened message changes nothing but the epoch count and is not acknowledged |
| LspSources.ClientReadsWhatWasWritten | project-2/src/example.com/lsp/client_impl.go:167-196 | in every run, whatever the address was used for: the k-th payload a client gets, or has parked as number k, is the k-th payload that some session of its address wrote and numbered |
| LspSources.ClientReadsPrefix | project-2/src/example.com/lsp/client_impl.go:167-196 | in every run a client has been handed exactly the first `rsq - 1` payloads of a session of its address, if no other session of the address has numbered anything different below `rsq` |
| LspOrder.NumbersWithinWindow | project-2/src/example.com/lsp/client_impl.go:194-203 | a session that its client did not adopt is never acknowledged and so never numbers beyond the window |
| LspOrder.PastTheWindow | project-2/src/example.com/lsp/client_impl.go:180-192 | from every reachable state whose order is right and whose `rsq` exceeds the window, every run keeps what the client reads a prefix of what its session writes |
| LspOrder.StepKeepsOrdered | project-2/src/example.com/lsp/client_impl.go:167-196 | without a rival no step of anybody breaks the order, nor makes what is parked disagree |
| LspOrder.StepKeepsUnrivalled | project-2/src/example.com/lsp/server_impl.go:169-225 | only opening a session can bring a rival in: no other step does |
| LspRivals.RivalBreaks | project-2/src/example.com/lsp/client_impl.go:176-192 | a rival that runs, with a number the client lacks that differs or can still be written, breaks the order in a run that is given |
| LspRivals.ReopeningBreaks | project-2/src/example.com/lsp/server_impl.go:169-225 | so does a connect request in flight, through a session that closing lets it open |
| LspRivals.ParkedBreaks | project-2/src/example.com/lsp/client_impl.go:176-192 | so does a parked payload that is not the session's own |
| LspRivals.SettledStaysInOrder | project-2/src/example.com/lsp/client_impl.go:167-196 | from every reachable settled state, every run keeps what the client reads a prefix of what its session writes |
| LspRivals.InOrderForEverIffSettled | project-2/src/example.com/lsp/client_impl.go:167-196 | and, when the handlers concerned run, only from settled states |
| LspTheorems.AllAckedAllDelivered | project-2/src/example.com/lsp/client_impl.go:154-157 | acked implies delivered: with `tbuffer` and `tmsg` empty, all that was written has been handed to the peer's reader |
| LspTheorems.ClientGracefulExit | project-2/src/example.com/lsp/client_impl.go:154-157 | a client handler that takes the graceful exit has had everything written delivered to the server's reader |
| LspSources.SessionGracefulExit | project-2/src/example.com/lsp/server_impl.go:239-243 | a session handler that takes it has had as many payloads handed to the client's reader as it was given, always, and exactly those if no other session numbered anything different |
| LspTheorems.WindowsHold | project-2/src/example.com/lsp/server_impl.go:245-250 | in every run, each session's unacked keys lie in `[tsq - windows, tsq)`, its live parked keys strictly between `rsq` and `rsq + windows`; so at most `windows` and `windows - 1` of them |
| LspSources.ClientWindowsHold | project-2/src/example.com/lsp/client_impl.go:159-164 | the same for every client, whatever its address was used for |
| LspTheorems.WindowOfSender | project-2/src/example.com/lsp/client_impl.go:231-238 | the sender's bound from its own invariant, with the size of `tbuffer` |
| LspTheorems.WindowOfReceiver | project-2/src/example.com/lsp/client_impl.go:176-192 | the receiver's bound, which comes from the peer's window and "acked implies stored" |
| LspTheorems.IdentifiersAreUnique | project-2/src/example.com/lsp/server_impl.go:169-205 | no two clients ever adopt one identifier; an adopted one was given to that address; live sessions have distinct addresses and identifiers in `[73, lastConnID)` |
| LspTheorems.UnansweredSessionRepeatsAck | project-2/src/example.com/lsp/server_impl.go:304-307 | while its client has no identifier a session has `rsq == 1` and nothing parked, so every epoch it survives writes the ack again |
| LspTheorems.OpenSessionsAreInTable | project-2/src/example.com/lsp/server_impl.go:210-225 | in every reachable state the server still routes to each session that was not told to close |
| LspTable.InTableIff | project-2/src/example.com/lsp/server_impl.go:203-224 | in every run the table has exactly the accepted connections whose closing was not taken from `cls` |
| LspTable.AcceptsIff | project-2/src/example.com/lsp/server_impl.go:169-209 | in every reachable state a connect request opens a connection, with the next identifier, a fresh session and its ack, iff all earlier connections of its address are closed; otherwise it changes nothing |
| LspSafety.RunKeepsInv | project-2/src/example.com/lsp/client_impl.go:150-244 | the invariant of senders, receivers, table and packets holds along every run of the whole system |
| LspSafety.StepKeepsInv | project-2/src/example.com/lsp/server_impl.go:161-335 | each single step keeps it: accept, route, close, any branch of any handler, loss, shortening |
| LspSafety.NetworkKeepsInv | project-2/src/example.com/lspnet/conn.go:99-154 | losing any set of packets and shortening any payload keeps it; repeating and reordering are always possible as packets stay |
| LspSafety.ActKeepsSenderOk | project-2/src/example.com/lsp/client_impl.go:198-242 | no branch breaks the numbering of `tbuffer` and `tmsg` or the window; only the ack of a connect request gives an identifier |
| LspSafety.ReceiverMoves | project-2/src/example.com/lsp/client_impl.go:171-196 | whatever the receiver does, given genuine data, it still has a prefix of what the peer wrote and all the acked messages |
| LspSafety.SenderMoves | project-2/src/example.com/lsp/client_impl.go:198-206 | whatever the sender does, given truthful acks, what it stops retransmitting is in the peer's hands |
| LspSafety.SentOk | project-2/src/example.com/lsp/client_impl.go:194-240 | every packet written is genuine data of its writer, or an ack of something stored |
| LspSafety.DrainReceived | project-2/src/example.com/lsp/client_impl.go:180-192 | the drain loop hands over a longer prefix, and stops with `rsq` not parked |
| LspSafety.DrainGrows | project-2/src/example.com/lsp/client_impl.go:180-192 | the drain loop loses nothing stored, and ends at a number that is not parked |
| LspSafety.AcceptKeepsInv | project-2/src/example.com/lsp/server_impl.go:169-209 | accepting, or ignoring, a connect request keeps the invariant |
| LspProgress.ClientCanDeliverAll | project-2/src/example.com/lsp/client_impl.go:208-242 | from every reachable state with the connection established, even if all packets in flight are lost, some run delivers everything the client wrote and empties `tbuffer` and `tmsg` |
| LspProgress.SessionCanDeliverAll | project-2/src/example.com/lsp/server_impl.go:291-324 | the same from the server: all is acknowledged and as many payloads are delivered, exactly those if no other session of the address numbered anything different |
| LspProgress.HandshakeCompletes | project-2/src/example.com/lsp/server_impl.go:291-307 | from every reachable state, one epoch of the live session of an address gives its waiting client the identifier |
| LspProgress.HandshakeStarts | project-2/src/example.com/lsp/client_impl.go:216-219 | without a live session for its address, the client's own epoch leads to a new one and its identifier |
| LspProgress.GivesUp | project-2/src/example.com/lsp/client_impl.go:208-215 | `retries` epochs without an ack bring the client's handler to an end without an identifier |
| LspProgress.GivenUpForEver | project-2/src/example.com/lsp/client_impl.go:90-96 | from there no run gives it one, so that NewClient never returns |
| LspProgress.ConnectsIffNotGivenUp | project-2/src/example.com/lsp/client_impl.go:208-219 | from every reachable state, with all packets lost, a waiting client with an epoch left can be connected iff its handler has not returned |
| LspEpochs.EveryMessageCounts | project-2/src/example.com/lsp/client_impl.go:167-168 | for every endpoint whose handler runs and every message, complete or short, new or repeated, of use or not: the epoch count is 0 after it |
| LspEpochs.ClientCountIsSilence | project-2/src/example.com/lsp/client_impl.go:151-209 | in every run the epoch count of a client is the number of its epochs since a message last came |
| LspEpochs.SessionCountIsSilence | project-2/src/example.com/lsp/server_impl.go:233-292 | the same for sessions |
| LspEpochs.ClientOpenIff | project-2/src/example.com/lsp/client_impl.go:150-215 | in every run a client is open iff Close was not called on it and it was never without a message for `retries` epochs |
| LspEpochs.SessionOpenIff | project-2/src/example.com/lsp/server_impl.go:232-303 | in every run a session is open iff the server was not told to close it and it was never without a message for `retries` epochs |
| LspEpochs.ClientGivesUpExactlyThen | project-2/src/example.com/lsp/client_impl.go:208-215 | from every reachable state, connected or not: n epochs in a row without a message end the client's handler iff n is at least what is left of the limit |
| LspEpochs.SessionGivesUpExactlyThen | project-2/src/example.com/lsp/server_impl.go:291-302 | the same for every session |
| LspEpochs.RemindersKeepOpen | project-2/src/example.com/lsp/client_impl.go:216-224 | from every state with an idle established connection with an epoch left: with the reminders of both ends arriving it stays open for any number of epochs |
| LspEpochs.LastEpochWritesNothing | project-2/src/example.com/lsp/client_impl.go:211-215 | the epoch that reaches the limit ends the handler and writes nothing |
| LspEpochs.ClientEpochWrites | project-2/src/example.com/lsp/client_impl.go:216-227 | in every reachable state a surviving epoch writes exactly: what is not acknowledged, the connect request without an identifier, and the reminder iff nothing has ever come |
| LspEpochs.SessionEpochWrites | project-2/src/example.com/lsp/server_impl.go:304-310 | in every reachable state: what is not acknowledged, and the reminder iff nothing has ever come |
| LspEpochs.SendsIff | project-2/src/example.com/lsp/client_impl.go:231-238 | the next queued message gets its number and is written iff no unacknowledged number is `tsq - windows` or less; otherwise nothing happens |
| LspEpochs.SendingFillsWindow | project-2/src/example.com/lsp/client_impl.go:159-241 | with enough queued, n sends move `tsq` by n as long as it stays within the window of the oldest unacknowledged number |
| LspEpochs.ClientFillsWindow | project-2/src/example.com/lsp/client_impl.go:159-241 | from every reachable connected state with enough queued, sends alone bring the client's `tsq` to the oldest unacknowledged number plus the window |
| LspEpochs.SessionFillsWindow | project-2/src/example.com/lsp/server_impl.go:245-324 | the same for sessions |
| LspEpochs.OldestIsInWindow | project-2/src/example.com/lsp/client_impl.go:159-238 | `tsq` is never beyond that |
| LspFindings.StaleIffDuplicate | project-2/src/example.com/lsp/client_impl.go:176-192 | a complete data message leaves a stale payload parked iff one was there or it repeats a delivered one |
| LspFindings.ClientStaleForEver | project-2/src/example.com/lsp/client_impl.go:154-157 | then no further run makes the client's graceful exit possible |
| LspFindings.SessionStaleForEver | project-2/src/example.com/lsp/server_impl.go:239-243 | the same for a session |
| LspFindings.ClientExitsIffNothingStale | project-2/src/example.com/lsp/client_impl.go:154-157 | with everything acknowledged both ways and no other session ahead, a closing client's handler may return iff nothing stale is parked |
| LspFindings.SessionExitsIffNothingStale | project-2/src/example.com/lsp/server_impl.go:239-243 | the same for every session that its client adopted |
| LspFindings.DuplicateGetsParked | project-2/src/example.com/lsp/server_impl.go:262-265 | a run in which a session parks a duplicate, for every window and payload |
| LspFindings.ClientParksDuplicate | project-2/src/example.com/lsp/client_impl.go:176-178 | a run in which a client does |
| LspClosing.BothCanExitIffClosable | project-2/src/example.com/lsp/client_impl.go:154-206 | from every reachable established connection with no other session ahead and an epoch left: some run lets both handlers return gracefully, in whatever order, iff neither has parked a duplicate and for each message handed over but not acknowledged the ack is in flight |
| LspClosing.BothClose | project-2/src/example.com/lsp/client_impl.go:154-242 | the run that does it delivers all the client's payloads and as many as the session wrote, and exactly those if no other session numbered anything different |
| LspClosing.NotClosable | project-2/src/example.com/lsp/client_impl.go:176-196 | otherwise no run lets them return, neither the client's handler first nor the session's |
| LspClosing.VainForbidsExits | project-2/src/example.com/lsp/client_impl.go:198-205 | a message of the client's whose ack is lost forbids it in both orders |
| LspClosing.SessionVainForbidsExits | project-2/src/example.com/lsp/server_impl.go:285-288 | so does one of the session's |
| LspExits.ClientCanExitIffNothingStale | project-2/src/example.com/lsp/client_impl.go:119-157 | from every reachable established connection with no other session ahead and an epoch left: Close can still have the client's handler return gracefully iff it has parked no duplicate |
| LspExits.SessionCanExitIffNothingStale | project-2/src/example.com/lsp/server_impl.go:219-243 | the same for a session closed by the server's Close, whatever else the address is used for |
| LspCloseConn.CloseConnFinishesIff | project-2/src/example.com/lsp/server_impl.go:210-225 | from every reachable state: a connection closed by CloseConn can still send all that is pending and return gracefully iff it has parked no duplicate, and for each message not acknowledged the ack, and for each one missing before a parked one the message, is already on its way to it when it is closed |
| LspCloseConn.AbandonedForEver | project-2/src/example.com/lsp/server_impl.go:210-225 | otherwise no run after that lets its handler return gracefully |
| LspCloseConn.LeavesGracefully | project-2/src/example.com/lsp/server_impl.go:239-289 | and if so some run does |
| LspCloseConn.CloseConnAbandonsMessage | project-2/src/example.com/lsp/server_impl.go:219-225 | a run with one message written, nothing lost, after which CloseConn can never finish |
| LspExits.NextArrives | project-2/src/example.com/lsp/client_impl.go:180-192 | the message waited for hands over what was parked behind it and makes nothing stale |
| LspClosing.LastArrives | project-2/src/example.com/lsp/client_impl.go:171-192 | repeating the last unacknowledged message first makes nothing stale |
| LspFindings.SecondSessionIsReadAsTheFirst | project-2/src/example.com/lsp/client_impl.go:166-192 | a run in which a client reads the data of another session as its own |
| LspHandler.Handler.Client | project-2/src/example.com/lsp/client_impl.go:57-84 | the client starts as the model's: the connect request unacknowledged, numbering from 1 |
| LspHandler.Handler.Session | project-2/src/example.com/lsp/server_impl.go:183-202 | a session starts as the model's |
| LspHandler.Handler.Write | project-2/src/example.com/lsp/client_impl.go:112-117 | the new state is the model's: queued behind everything written before |
| LspHandler.Handler.Read | project-2/src/example.com/lsp/client_impl.go:103-110 | returns the oldest payload not yet read, and None iff there is none |
| LspHandler.Handler.Close | project-2/src/example.com/lsp/client_impl.go:119-122 | the new state is the model's |
| LspHandler.Handler.TryExit | project-2/src/example.com/lsp/client_impl.go:154-157 | exits exactly when the model's handler may |
| LspHandler.Handler.HandOver | project-2/src/example.com/lsp/client_impl.go:180-192 | the loop that deletes and hands over computes the recursive drain |
| LspHandler.Handler.HandleData | project-2/src/example.com/lsp/client_impl.go:171-196 | new state and ack written are the model's, for short, early, late, repeated and expected messages |
| LspHandler.Handler.HandleAck | project-2/src/example.com/lsp/client_impl.go:198-205 | the new state is the model's; nothing is written |
| LspHandler.Handler.Resend | project-2/src/example.com/lsp/client_impl.go:225-227 | the loop writes exactly the unacknowledged messages |
| LspHandler.Handler.HandleTimer | project-2/src/example.com/lsp/client_impl.go:208-227 | new state and packets written are the model's, at the epoch limit and below it |
| LspHandler.Handler.MinUnAcked | project-2/src/example.com/lsp/client_impl.go:159-164 | the least key of `tbuffer`, or `tsq` if there is none or it is smaller |
| LspHandler.Handler.HandleDefault | project-2/src/example.com/lsp/client_impl.go:228-242 | the test on the minimum decides as the model's window on all keys; new state and packet are the model's |
| LspHandler.ConnTable.constructor | project-2/src/example.com/lsp/server_impl.go:83-98 | the table starts empty, with identifiers from 73 |
| LspHandler.ConnTable.IsDuplicate | project-2/src/example.com/lsp/server_impl.go:171-177 | true iff some live session has this address |
| LspHandler.ConnTable.HandleConnect | project-2/src/example.com/lsp/server_impl.go:168-209 | table, identifier, the new session's state and its ack are the model's; a repeated request changes nothing |
| LspHandler.ConnTable.HandleClose | project-2/src/example.com/lsp/server_impl.go:219-225 | the session is told to close as in the model, its entry is gone and all others stay |
| MapReduceMaster.DistributedEqualsSequential | project-3/src/mapreduce/master.go:88-111 | in every run in which RunMaster returns, with workers failing before or after running the job, late registrations and late executions, Merge writes what RunSingle writes on the same splits, and that is the group-by |
| MapReduceMaster.JobsAreConserved | project-3/src/mapreduce/master.go:31-85 | in every reachable state each job is in exactly one of queue, one worker's hands, or finished; sends fit the four channels; `reduceStart` is closed at most once |
| MapReduceMaster.ReduceAfterAllMaps | project-3/src/mapreduce/master.go:55-61 | whenever a reduce job is held, every map job has finished and no file it needs is missing |
| MapReduceMaster.ReturnedMeansCounted | project-3/src/mapreduce/master.go:99-107 | RunMaster returns only after the barrier and the count of every reduce job; never if there are no map or no reduce jobs |
| MapReduceReturns.ReturnsAloneIff | project-3/src/mapreduce/master.go:31-111 | from every reachable state, RunMaster can return without another registration iff there are map and reduce jobs, no split is missing, and all reduce jobs have succeeded or some worker is left |
| MapReduceReturns.ReturnsIff | project-3/src/mapreduce/master.go:88-111 | with late registrations, iff there are map and reduce jobs and no split is missing |
| MapReduceReturns.LastWorkerIsLost | project-3/src/mapreduce/master.go:61-83 | a run after which it cannot: one worker finds the reduce queue empty and leaves, the other's call fails |
| MapReduceReturns.HangsForEver | project-3/src/mapreduce/master.go:59-84 | with every worker gone and a reduce job left no run without a registration returns |
| MapReduceOrder.JobsInTurn | project-3/src/mapreduce/master.go:35-82 | in every run from every state: the first d jobs taken are the first d of the queue, and one whose call failed waits behind all others |
| MapReduceOrder.FirstAttemptsInOrder | project-3/src/mapreduce/mapreduce.go:91-104 | so in every run from the start jobs are first tried in the order of their numbers |
| MapReduceOrder.AfterAFailure | project-3/src/mapreduce/master.go:43-54 | after a failed map or reduce call: its job is the last in its queue, no other worker is affected, and in every continuation this worker gets no job and the failed one may still run |
| MapReduceOrder.LeavesOnlyIf | project-3/src/mapreduce/master.go:42-83 | a worker leaves only after a failed call, or past the barrier when the reduce queue is empty |
| MapReduceMaster.StepKeepsPools | project-3/src/mapreduce/master.go:34-84 | each step of any goroutine conserves the jobs |
| MapReduceMaster.StepKeepsPhase | project-3/src/mapreduce/master.go:99-108 | each step keeps the barrier and the count of closes |
| MapReduceMaster.StepKeepsFiles | project-3/src/mapreduce/master.go:34-84 | each step keeps every file equal to what its job should write, and there once the job has been reported |
| MapReduceMaster.RunKeepsInv | project-3/src/mapreduce/master.go:31-111 | all three along every run |
| JobPool.AllFinished | project-3/src/mapreduce/master.go:99-108 | as many successes as jobs means that all jobs succeeded, and none is queued or held |
| JobPool.Fits | project-3/src/mapreduce/mapreduce.go:91-98 | queue and successes never exceed the capacity `n` |
| JobPool.SomeLeft | project-3/src/mapreduce/master.go:35-61 | while not all jobs have succeeded one is queued or held |
| JobPool.Taken | project-3/src/mapreduce/master.go:35-35 | receiving a job conserves |
| JobPool.Finished | project-3/src/mapreduce/master.go:49-50 | reporting a job conserves |
| JobPool.Requeued | project-3/src/mapreduce/master.go:44-54 | putting a job back conserves |
| MapReduceWorkers.MasterProcess.constructor | project-3/src/mapreduce/mapreduce.go:79-104 | the two loops fill the queues with all jobs; the state is the model's initial one |
| MapReduceWorkers.MasterProcess.HandleRegister | project-3/src/mapreduce/master.go:94-98 | one step of the model |
| MapReduceWorkers.MasterProcess.NextJob | project-3/src/mapreduce/master.go:34-83 | the step of the model for each phase and queue: take a job, pass the barrier once closed, or leave; `barrier` is Go's choice where two branches are ready |
| MapReduceWorkers.MasterProcess.CallReturned | project-3/src/mapreduce/master.go:42-80 | success is one step of the model, and each of the two failures puts the job back and ends the worker |
| MapReduceWorkers.MasterProcess.HandleMapDone | project-3/src/mapreduce/master.go:99-103 | one step of the model, closing the barrier at the last job |
| MapReduceWorkers.MasterProcess.HandleReduceDone | project-3/src/mapreduce/master.go:104-108 | one step of the model, returning at the last job |
| MapReduceJobs.RunSingleIsGroupBy | project-3/src/mapreduce/mapreduce.go:215-343 | the sequential run stops iff a split is missing; otherwise it writes the group-by |
| MapReduceJobs.GroupByMeaning | project-3/src/mapreduce/mapreduce.go:297-300 | each emitted key once, in increasing order, with Reduce of its values in the order of map jobs and emission |
| MapReduceJobs.OutputIgnoresPartitioning | project-3/src/mapreduce/mapreduce.go:244-244 | the output does not depend on `nReduce` or on the hash |
| MapReduceJobs.NoReduceJobs | project-3/src/mapreduce/mapreduce.go:309-343 | without reduce jobs the output is empty |
| MapReduceJobs.MergeIsGroupBy | project-3/src/mapreduce/mapreduce.go:306-343 | merging the results of all partitions, whatever the hash, is grouping everything |
| MapReduceJobs.PartitionValues | project-3/src/mapreduce/mapreduce.go:236-252 | a key's values are all in its own partition, in their order |
| MapReduceJobs.PartitionKeys | project-3/src/mapreduce/mapreduce.go:242-250 | a partition has exactly the keys that hash to it |
| MapReduceJobs.PartitionOne | project-3/src/mapreduce/mapreduce.go:242-250 | a pair is in partition `r` iff the hash of its key modulo `nReduce` is `r` |
| MapReduceJobs.PartitionConcat | project-3/src/mapreduce/mapreduce.go:236-250 | partitioning goes pair by pair, in order |
| MapReduceJobs.LastPrevails | project-3/src/mapreduce/mapreduce.go:309-324 | in the merge of any result files the last file that lists a key prevails, and in it the last pair |
| MapReduceJobs.GatheredIsPartition | project-3/src/mapreduce/mapreduce.go:264-285 | what a reduce job reads from all the files of its partition is the partition of all that was emitted |
| MapReduceJobs.DoMapOk | project-3/src/mapreduce/mapreduce.go:215-253 | a map job, run at any time and any number of times, leaves all files right and adds its own |
| MapReduceJobs.DoReduceOk | project-3/src/mapreduce/mapreduce.go:261-302 | the same for a reduce job |
| MapReduceFiles.MapReduce.Encode | project-3/src/mapreduce/mapreduce.go:241-250 | the file written for partition `r` is that partition |
| MapReduceFiles.MapReduce.RunMap | project-3/src/mapreduce/mapreduce.go:215-253 | the loops write exactly the files of the specification, and nothing if the split is missing |
| MapReduceFiles.MapReduce.Decode | project-3/src/mapreduce/mapreduce.go:271-283 | the map of lists groups what has been read, in order |
| MapReduceFiles.MapReduce.WriteReduced | project-3/src/mapreduce/mapreduce.go:286-300 | sorting the keys and reducing each list writes the group-by of what was read |
| MapReduceFiles.MapReduce.RunReduce | project-3/src/mapreduce/mapreduce.go:261-302 | the loops write exactly the specified result file, and nothing if a file is missing |
| MapReduceFiles.MapReduce.Absorb | project-3/src/mapreduce/mapreduce.go:317-324 | later pairs overwrite earlier ones of the same key |
| MapReduceFiles.MapReduce.RunMerge | project-3/src/mapreduce/mapreduce.go:306-343 | the output is the specified one; none if a result is missing |
| MapReduceFiles.MapReduce.WriteLines | project-3/src/mapreduce/mapreduce.go:327-340 | the keys in order, each with its value |
| MapReduceFiles.MapReduce.RunAll | project-3/src/mapreduce/mapreduce.go:213-343 | the sequential program, loops and all, outputs the group-by of the splits, iff all splits exist |
| Sorting.SortStrings | project-3/src/mapreduce/mapreduce.go:286-290 | the keys in increasing order, each once; `Sorting.IncreasingIsUnique` says that there is one such list |
| Sorting.IncreasingIsUnique | project-3/src/mapreduce/mapreduce.go:290-290 | two increasing lists of the same strings are equal, so the order in which the map is ranged over does not show |
| MapReduceSplit.RunSplit | project-3/src/mapreduce/mapreduce.go:182-200 | the chunk size and the scanning loop write the files of the specification |
| MapReduceSplit.WriteLine | project-3/src/mapreduce/mapreduce.go:188-197 | the loop's body does to the files what the specification says |
| MapReduceSplit.Scan | project-3/src/mapreduce/mapreduce.go:186-187 | takes the first line off the text |
| MapReduceSplit.LinesMeaning | project-3/src/mapreduce/mapreduce.go:186-187 | a line ends with the next newline, and one carriage return before it is not part of it |
| MapReduceSplit.LastLineMeaning | project-3/src/mapreduce/mapreduce.go:186-187 | the last line needs no newline, and after a newline no empty line follows |
| MapReduceSplit.SplitConserves | project-3/src/mapreduce/mapreduce.go:187-200 | the files in order are all the lines in order |
| MapReduceSplit.SplitKeepsLines | project-3/src/mapreduce/mapreduce.go:195-196 | every file ends with a line, so no line is cut |
| MapReduceSplit.AtMostNMap | project-3/src/mapreduce/mapreduce.go:174-194 | at least one and never more than `nMap` files |
| MapReduceSplit.ExactlyNMapIff | project-3/src/mapreduce/mapreduce.go:188-194 | for every text there are exactly `nMap` files iff, for each d below `nMap - 1`, the line d before the last exists and begins beyond `nMap - 1 - d` chunks of `size / nMap + 1` bytes |
| MapReduceSplit.ExactlyNMapIfShort | project-3/src/mapreduce/mapreduce.go:188-194 | with lines no longer than a chunk that is: iff the last line begins beyond `nMap - 1` chunks |
| MapReduceChunks.AtLeastIff | project-3/src/mapreduce/mapreduce.go:188-194 | for any beginnings of lines, at least `m` files are opened iff the last ones, counted from the end, are all late enough |
| MapReduceSplit.ExactlyNMap | project-3/src/mapreduce/mapreduce.go:174-194 | so it is if `size / nMap` is at least `nMap` plus the longest line, without carriage returns |
| MapReduceSplit.CarriageReturnsFallShort | project-3/src/mapreduce/mapreduce.go:186-197 | with them it is not: texts of any length that are never split in two |
| MapReduceChunks.CapacityIsProduct | project-3/src/mapreduce/mapreduce.go:188-188 | the bound for opening a file, a sum in the specification, is `nchunk * m` |
| MapReduceSplit.FilesOpened | project-3/src/mapreduce/mapreduce.go:188-194 | the number of files depends on where the lines begin and on nothing else |
| WordCount.WordCountEndToEnd | project-3/src/main/wc.go:20-50 | for all texts, `nMap`, `nReduce` and hashes: there is an output iff all splits exist, and it lists, sorted, exactly the words of the text, each with the canonical numeral of the number of its occurrences |
| WordCount.TokensCount | project-3/src/main/wc.go:23-28 | a word is a token as often as it occurs between non-letters |
| WordCount.TokensConcat | project-3/src/main/wc.go:23-28 | tokenising distributes over a cut at a non-letter |
| WordCount.LinesKeepTokens | project-3/src/mapreduce/mapreduce.go:186-197 | scanning into lines and writing them back changes no word |
| WordCount.EmittedTokens | project-3/src/main/wc.go:20-36 | the map jobs together emit the words of all the files, in order |
| WordCount.AtoiItoa | project-3/src/main/wc.go:45-49 | parsing a printed number gives it back |
| WordCount.ItoaIffCanonical | project-3/src/main/wc.go:49-49 | what is printed for an integer is the one string that parses to it and is canonical: digits without a leading zero except for "0", behind a '-' iff it is negative |
| WordCount.DigitsPlaces | project-3/src/main/wc.go:45-45 | digits count by their place in base ten |
| WordCount.AtoiSigns | project-3/src/main/wc.go:45-45 | one sign may stand in front; any other string counts for 0 |
| WordCount.SumConcat | project-3/src/main/wc.go:44-47 | the sum of two lists together is the sum of the two sums |
| WordCount.CountsCanBeRead | project-3/src/main/wc.go:41-50 | each word of the text is listed with the decimal numeral of its number of occurrences |
| WordCount.CountOnes | project-3/src/main/wc.go:41-50 | the sum of a word's "1"s is its number of occurrences |
| WordCount.Map | project-3/src/main/wc.go:20-36 | the loop emits one pair per word |
| WordCount.Reduce | project-3/src/main/wc.go:41-50 | the loop prints the sum of the values, as the canonical numeral that parses to it |
| BitcoinTheorems.NeverPanics | project-2/src/example.com/bitcoin/server/server.go:164-229 | no run looks up a task that is not there |
| BitcoinTheorems.AnsweredAtMostOnce | project-2/src/example.com/bitcoin/server/server.go:215-222 | in every reachable state no request has two answers |
| BitcoinTheorems.AnsweredIffAllCounted | project-2/src/example.com/bitcoin/server/server.go:210-222 | a request has been answered iff every piece of its split was counted exactly once, despite crashes and requeueing, and its client was not lost |
| BitcoinTheorems.AnswerIsLeastCounted | project-2/src/example.com/bitcoin/server/server.go:211-214 | the answer is the first of the counted results with the least hash, with its nonce |
| BitcoinAnswers.AnswerIsLeastSearched | project-2/src/example.com/bitcoin/server/server.go:200-222 | with honest miners no nonce searched for the request has a smaller hash than the answer; and unless the answer comes from an empty piece its nonce is at most `upper`, was searched and has that hash |
| BitcoinAnswers.LastPieceNotEmpty | project-2/src/example.com/bitcoin/server/server.go:143-155 | no answer comes from an empty piece if the last piece is not empty |
| BitcoinAnswers.AnswerIsMinimum | project-2/src/example.com/bitcoin/server/server.go:200-222 | if each piece leaves out at most the beginning of the next, the answer, not being from an empty piece, is the minimum over all of `[0, upper]` |
| BitcoinAnswers.MinimumIffSmallRests | project-2/src/example.com/bitcoin/miner/miner.go:82-117 | the answer is the minimum for every hash that the miners' results leave open iff it is not from an empty piece, and the rests are so small or it is 1, the least hash there is |
| BitcoinAnswers.EmptyPieceCouldBeWrong | project-2/src/example.com/bitcoin/server/server.go:149-155 | an answer from an empty piece fits a hash for which it is not the minimum |
| BitcoinAnswers.UnsearchedCouldBeLess | project-2/src/example.com/bitcoin/miner/miner.go:82-105 | for each nonce not searched there is a hash with which all results are as honest and the answer is not the minimum |
| BitcoinAnswers.LastNonceIsMissed | project-2/src/example.com/bitcoin/miner/miner.go:82-104 | a run with bound 22 and one miner of three goroutines whose answer is not the minimum |
| BitcoinAnswers.MinePiece | project-2/src/example.com/bitcoin/miner/miner.go:82-119 | what the miner does with a piece is what an honest miner does |
| BitcoinCoverage.AllSearchedIff | project-2/src/example.com/bitcoin/miner/miner.go:82-105 | all of `[0, upper]` is searched iff each piece followed by one that is not empty has a remainder of at most 1 and the last that is not empty has none |
| BitcoinCoverage.LargeRestMisses | project-2/src/example.com/bitcoin/miner/miner.go:83-104 | the first nonce that a larger remainder leaves out is in no other piece's search |
| BitcoinAnswers.ReachableCut | project-2/src/example.com/bitcoin/server/server.go:149-156 | the pieces of a request are those of the split, whatever happened since |
| BitcoinTheorems.LostIsNeverAnswered | project-2/src/example.com/bitcoin/server/server.go:252-255 | after a request is marked lost no further run answers it |
| BitcoinTheorems.AnsweredIsFinal | project-2/src/example.com/bitcoin/server/server.go:215-222 | an answer stays, and nothing more is counted for its request |
| BitcoinTheorems.MinersCountsWhatIsOpen | project-2/src/example.com/bitcoin/server/server.go:145-210 | `miners` is pending plus busy plus given-up pieces of the task, and positive; pending plus busy if the client is not lost |
| BitcoinTheorems.OpenPiecesHaveTasks | project-2/src/example.com/bitcoin/server/server.go:162-221 | every pending piece and busy miner has a task |
| BitcoinTheorems.FreeMinersAreTheIdle | project-2/src/example.com/bitcoin/server/server.go:169-251 | `freeMiners` has no duplicates and is exactly the miners with no client |
| BitcoinTheorems.NewcomerTakesOver | project-2/src/example.com/bitcoin/server/server.go:158-240 | when a busy miner of a live client is lost, the next to join gets the very piece, and nothing else has changed |
| BitcoinOrder.FirstComeFirstServed | project-2/src/example.com/bitcoin/server/server.go:149-182 | in every reachable state: if the piece in front was never taken from the queue, all pieces asked for before it were |
| BitcoinOrder.EarlierRequestFirst | project-2/src/example.com/bitcoin/server/server.go:149-182 | of two requests, no piece of the later is taken for the first time before every piece of the earlier has been taken |
| BitcoinOrder.RunInTurn | project-2/src/example.com/bitcoin/server/server.go:133-258 | every run keeps the queue in that order: pieces queued again in front, then those never taken, in the order they were asked for |
| BitcoinOrder.RequestWaits | project-2/src/example.com/bitcoin/server/server.go:150-155 | a request leaves every piece already queued where it stands |
| BitcoinOrder.TriedIsTaken | project-2/src/example.com/bitcoin/server/server.go:158-190 | a piece counts as taken only when a trigger takes it from the front, and unless its client is lost the first idle miner gets exactly it |
| BitcoinOrder.IdleServedInOrder | project-2/src/example.com/bitcoin/server/server.go:171-224 | in every run in which nobody joins or is lost: the first d miners served are the first d of those idle at the start |
| BitcoinOrder.WakesIffNew | project-2/src/example.com/bitcoin/server/server.go:157-240 | a trigger is sent exactly when there is new work or a new idle miner, and only taking one uses one up |
| BitcoinOrder.MinerLossSparesRequest | project-2/src/example.com/bitcoin/server/server.go:228-256 | the loss of a connection that is a miner does not mark its own request lost |
| BitcoinProgress.EveryoneCanBeAnswered | project-2/src/example.com/bitcoin/server/server.go:157-240 | from every reachable state, whatever the miners find, some run of joins, triggers and results answers every client that was not lost |
| BitcoinScheduler.Stride | project-2/src/example.com/bitcoin/server/server.go:134-142 | enough pieces for every free miner, and more only if the bound asks for it |
| BitcoinTheorems.NoStallWithoutLoss | project-2/src/example.com/bitcoin/server/server.go:157-240 | while no client with an open task is lost, pending work and a free miner always come with a trigger or a busy miner |
| BitcoinTheorems.StallsExactlyWhen | project-2/src/example.com/bitcoin/server/server.go:157-251 | a step makes the scheduler stall iff it spends the last trigger on giving up a piece while others wait, or loses the only busy miner, that of a lost client |
| BitcoinTheorems.StallsAfterALoss | project-2/src/example.com/bitcoin/server/server.go:164-166 | a run that stalls with a live client's piece queued |
| BitcoinSafety.HandleKeepsInv | project-2/src/example.com/bitcoin/server/server.go:129-258 | every event keeps the invariant of books, free list and answers |
| BitcoinSafety.RunKeepsInv | project-2/src/example.com/bitcoin/server/server.go:129-258 | and so does every run |
| BitcoinSafety.RemoveFirstDeadRemovesAll | project-2/src/example.com/bitcoin/server/server.go:245-250 | the loop that stops after its first removal still leaves exactly the living |
| BitcoinServer.Server.HandleRequest | project-2/src/example.com/bitcoin/server/server.go:133-157 | the whole new state is the model's |
| BitcoinServer.Server.PushPieces | project-2/src/example.com/bitcoin/server/server.go:149-156 | the loop appends the pieces of the split in order |
| BitcoinServer.Server.HandleTrigger | project-2/src/example.com/bitcoin/server/server.go:158-192 | the whole new state is the model's: nothing to do, give up, or dispatch |
| BitcoinServer.Server.HandleJoin | project-2/src/example.com/bitcoin/server/server.go:193-198 | the whole new state is the model's |
| BitcoinServer.Server.HandleResult | project-2/src/example.com/bitcoin/server/server.go:200-225 | the whole new state is the model's, the answer included |
| BitcoinServer.Server.HandleError | project-2/src/example.com/bitcoin/server/server.go:227-256 | the whole new state is the model's: busy, free and doomed miners, clients, strangers |
| BitcoinServer.Server.RemoveDead | project-2/src/example.com/bitcoin/server/server.go:246-250 | the loop removes the first dead miner only |
| BitcoinServer.Schedule | project-2/src/example.com/bitcoin/server/server.go:129-258 | the loop over events ends in the state that the run of the model ends in |
| BitcoinRanges.PiecesCover | project-2/src/example.com/bitcoin/server/server.go:143-156 | every nonce of `[0, upper]` is in a piece |
| BitcoinRanges.PiecesInside | project-2/src/example.com/bitcoin/server/server.go:149-155 | no piece has another |
| BitcoinRanges.AllNonEmptyIffLastIs | project-2/src/example.com/bitcoin/server/server.go:149-155 | all pieces are non-empty iff the last is |
| BitcoinRanges.LargeEnough | project-2/src/example.com/bitcoin/server/server.go:143-155 | they are whenever `upper >= (stride - 1)^2`, which is enough but not needed |
| BitcoinRanges.SearchRange | project-2/src/example.com/bitcoin/miner/miner.go:90-103 | one worker finds the least hash of its range and the first nonce that has it |
| BitcoinRanges.Collect | project-2/src/example.com/bitcoin/miner/miner.go:107-117 | the fold over the channel keeps the first of the least results |
| BitcoinRanges.LeastIsBest | project-2/src/example.com/bitcoin/miner/miner.go:88-117 | in whatever order the workers report, the least result is the best over exactly `[Lower, Lower + w * s]` |
| BitcoinRanges.Mine | project-2/src/example.com/bitcoin/miner/miner.go:82-119 | the miner's answer is the best over `[Lower, Lower + w * s]` |
| BitcoinRanges.Unsearched | project-2/src/example.com/bitcoin/miner/miner.go:83-104 | that range is inside the request and leaves out fewer than `w` nonces |

## Left out

- Sockets, JSON, RPC, files and logging: packets, files and call outcomes are values; reading back what was encoded gives it unchanged.
- The queues between goroutines of LSP (`incoming`, `outgoing`, `cls`): a packet once sent and not lost may be taken at any later time, by a session that CloseConn took out of the table only if it had arrived before (the step says which had, and it may take them in any order and more than once); a write reaches its session or fails to; all Go channels of LSP are unbounded, so that blocking on a full one is not modelled.
- The server's one `rmsg` for all connections: modelled per connection, so the order between connections is not.
- The `err` channels and the errors that Read returns.
- The polling loops of the two `Close` methods, the races on the shared `status`, and `handle`'s own exit: only the condition on which a handler returns.
- Payloads that the network lengthens, or replaces by others of the same length (the line `payload / 1000` does so to one-byte payloads): the receiver takes them as they are.
- Time: an epoch may end at any step, and a run is any interleaving. Progress is that a finite run to the goal exists, not that a fair scheduler takes it.
- ClientReadsPrefix: if another session of the address has numbered something different, what the client reads may be that; `LspRivals` says exactly when.
- SessionGracefulExit: the same for which payloads were read, not for how many.
- InOrderForEverIffSettled: that a rival breaks the order needs handlers that run and have an epoch left; that no rival keeps it does not.
- ConnectsIffNotGivenUp: for a client that is not in its last epoch; in that one it depends on packets from the server.
- BothCanExitIffClosable: for connections where no other session of the address has got ahead, and outside the last epoch.
- ClientCanExitIffNothingStale: the same.
- SessionCanExitIffNothingStale: outside the last epoch, and for the server's Close; `LspCloseConn.CloseConnFinishesIff` is about CloseConn.
- Two clients with one address after one another: an address has one client for ever, though many sessions.
- The select loops of the LSP handlers: `LspHandler` has their branches; which one is taken next is a step of the run in `LspSystem`.
- MapReduce workers: a job's execution is one step, at any time after its call began, also after the call failed; a job that finds a file missing stops its process. `KillWorkers` and the workers' job limit are not modelled.
- RunMaster's termination under a fair scheduler: `MapReduceReturns` says from which states it can return, not that it does.
- The scanner's limit of 64 KiB on a line, and files left over from earlier runs.
- WordCountEndToEnd: characters stand for runes and bytes alike, and letters are any set without the two line characters; range errors of `Atoi` do not arise and are not modelled.
- Integer width: all integers are unbounded, also nonces and hashes; `math.Ceil` on floats is the exact ceiling, which it is below 2^53.
- Hashes and logarithms: arbitrary functions and numbers, with 0 never a hash; `log10` of a bound above 10000 is at least 4, the miner's worker count is positive.
- The scheduler's assumptions: one request per client and one join per miner, no hash 0 (`BitcoinScheduler.Allowed`); that a result is for the miner's current assignment is the condition `BitcoinAnswers.Honest`; the channel `trigger` is unbounded, though the program's loop both fills and empties one of 1024; the error branch of `Write`, which LSP never takes; the tasks' pointers are values kept in the map, so aliasing is not modelled.
- The miner's work on an empty piece, whose length wraps around: nothing is assumed of what it returns.
- The shorter programs of the repository (`project-1`, `bufchan`, `midterm.go`, the homework): they would add only easy members.
