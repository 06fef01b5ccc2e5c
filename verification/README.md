# JammyGateServer: a model and its proofs

This project models the parts of the gate server whose correctness spans threads, calls or whole
runs, and proves what the code does there. Where the code falls short of what it evidently means to
do, the model keeps the code, a lemma exhibits a run that shows the gap, and the intended law is
proved for the smallest repaired step. Repairs are switches (`PoolMonitor.Config`,
`UserTable.Rules`, `Lifecycle.Config.armAtStart`); with all of them off the model is the code as
written.

- **Pools.** `MysqlPool`, `RedisConPool` and `GrpcConnectionPool` are one step system over any
  number of threads and connections (`PoolMonitor`): mutex, condition variable, queue and stop flag,
  with the borrowers (`MysqlDao`, `RedisMgr`, the two gRPC clients) as clients of it. Testing the
  predicate, going to sleep, pushing, notifying, storing the flag and `notify_all` are separate
  steps, because `close` works without the mutex. `PoolInvariant` keeps the invariant, `PoolLaws`,
  `PoolClose` and `GrpcPool` hold the results over runs. `Pools` has the classes themselves; each
  method is proved to come to what the monitor's uncontended run comes to.
- **Accounts.** `UserTable` says what each query answers and leaves behind under every way its call
  can end; `Handlers` has the five handlers as sequences of atomic Redis, SQL and RPC calls;
  `Accounts` and `Linearization` interleave any number of them. `MysqlDaos`, `RedisMgrs`,
  `RpcClients` and `Server` are the classes, proved call by call against those functions.
- **UrlEncode** and its unique decodability (`UrlCode`), the **connection lifecycle** with its
  deadline timer (`Lifecycle`), and **round robin** over the io contexts (`RoundRobin`).

Assumptions. The stored procedure `reg_user` is not in the repository; it is given an explicit
atomic contract (0 if the name or the email is taken, -1 on an error of its own, otherwise one new
row under a fresh positive uid), for which the only evidence is how `src/LogicSystem.cpp:190-191`
reads its result. Names and emails compare as exact strings. The driver never hands out one
connection twice. `checkUserExist` answers true when the user does not exist, and its callers use it
so; the comment above its call in `src/LogicSystem.cpp:84` says otherwise. `GrpcConnectionPool`
never initialises its flag, so its runs start from either value of it.

What the code does not do that it seems meant to do, with the lemma that shows it:
`checkUserEmailMatch` loses its connection whenever nothing matches
(`PoolLaws.MismatchesStarveThePool`); `close` can leave one getter asleep for good
(`PoolClose.CloseCanMissAGetter`, `PoolClose.MissedThreadIsStranded`); the gRPC pool's sleepers can
outlast every return (`GrpcPool.StrandingIsReachable`, `GrpcPool.IdleConnectionsBesideSleepers`);
all Redis commands but `get` use the null a closed pool gives (`PoolLaws.NullPointerUse`); an SQL
exception counts as success (`Handlers.ExceptionCountsAsSuccess`); an inserted user can be answered
as one that exists (`Handlers.RegisterUnderFaults`); the deadline is measured from construction,
does not cover the read, and never reaches a handler that blocks its thread
(`Lifecycle.IdleAcceptArmsExpiredDeadline`, `Lifecycle.ReadHasNoDeadline`,
`Lifecycle.BlockedHandlerIsNeverClosed`); a failed call to the code service is answered with 0
(`Handlers.CodeRequestsClassified`).

## Model

| member | source | states |
|---|---|---|
| `PoolInvariant.LockStep` | src/MysqlPool.cpp:24-46 | every action keeps the mutex exclusive: exactly the recorded owner is inside a critical section |
| `PoolInvariant.PhaseStep` | src/MysqlPool.cpp:26-37 | what a getter read before it lost the processor still holds when it acts on it, and only a stopped pool gives null |
| `PoolInvariant.QueueStep` | src/MysqlPool.cpp:39-46 | the queue holds live connections only, each once, and never a null |
| `PoolInvariant.HandsStep` | src/MysqlPool.cpp:24-46 | a connection in one thread's hands is in no other hands and in no other place |
| `PoolInvariant.CountStep` | src/MysqlPool.cpp:24-46 | idle, held, lost and retired connections always add up to those created |
| `PoolInvariant.WakeStep` | src/MysqlPool.cpp:24-46 | every action keeps enough pending wakeups for the idle connections while somebody sleeps |
| `PoolInvariant.InvRun` | src/MysqlPool.cpp:24-50 | the whole invariant holds over every run, spurious wakeups and closes included |
| `PoolLaws.HolderMoves` | src/MysqlPool.cpp:24-46 | the mutex holder always has a next action, which brings it strictly closer to unlocking |
| `PoolLaws.NoLostWakeup` | src/MysqlPool.cpp:24-46 | before the stop, while a getter sleeps the idle connections number no more than the pending wakeups, and then somebody on the way to one can act |
| `PoolLaws.ExclusiveOwnership` | src/RedisConPool.cpp:35-58 | over every run a connection is queued at most once, held by at most one thread, never both; front and pop never meet an empty queue or a null |
| `PoolLaws.LostCountsLeaks` | src/MysqlDao.cpp:208-215 | connections lost equal, one for one, the mismatch returns of checkUserEmailMatch; a repaired or other pool has none |
| `PoolLaws.Conservation` | src/MysqlDao.cpp:23-224 | exact conservation: idle + held + leaks + retired = created, nothing retired before the stop |
| `PoolLaws.MismatchesDrain` | src/MysqlDao.cpp:211-215 | as many mismatched requests as there are connections leave the pool empty |
| `PoolLaws.DrainedPoolStarves` | src/MysqlPool.cpp:26-31 | once all are lost, no run before the stop lets any thread out of getConnection |
| `PoolLaws.MismatchesStarveThePool` | src/LogicSystem.cpp:127-134 | from any fresh MySQL pool: one mismatched request per connection, then starvation in every continuation |
| `PoolLaws.NullPointerUse` | src/RedisMgr.cpp:43-47 | called after the stop, every command but get uses the null pointer it is given |
| `PoolLaws.NullOnlyAfterStop` | src/RedisMgr.cpp:18-22 | null is used only after the stop, never by get and never by a DAO method |
| `PoolClose.CloseMissesOnlyTheMutexHolder` | src/MysqlPool.cpp:47-50 | whoever is asleep after a complete close owned the mutex at the store, had already read the flag as false, and was not yet asleep at notify_all |
| `PoolClose.ParkedThreadSleepsThroughClose` | src/MysqlPool.cpp:26-31 | a thread holding the mutex with a false predicate does sleep through such a close |
| `PoolClose.TestingThreadSleepsThroughClose` | src/MysqlPool.cpp:26-31 | so does one that has read the flag but not yet the empty queue |
| `PoolClose.CloseMissesExactly` | src/MysqlPool.cpp:26-50 | some complete close from here leaves the getter asleep iff it owns the mutex with a false predicate, or has read the flag and the queue is empty |
| `PoolClose.CloseCanMissAGetter` | src/MysqlPool.cpp:47-50 | a pool of any size has a run in which a complete close leaves a getter asleep |
| `PoolClose.NobodyNotifiesAfterClose` | src/MysqlPool.cpp:39-46 | when a thread was missed, no return notifies from the store on |
| `PoolClose.MissedThreadIsStranded` | src/MysqlPool.cpp:41-43 | a missed thread stays asleep in every continuation without a spurious wakeup of it or another close |
| `PoolClose.CloseReleasesSleepers` | src/RedisConPool.cpp:37-46 | whoever sleeps when notify_all runs comes out with null after exactly three more actions of its own |
| `PoolClose.LockedCloseReleasesEverybody` | src/RedisConPool.cpp:59-62 | repaired: with the mutex taken for the store, a complete close leaves nobody asleep ever after; for the gRPC pool too once its wait tests the flag |
| `PoolClose.NoLeaseAfterStop` | src/MysqlPool.cpp:32-37 | after the stop only a thread past its last flag test can still come out with a connection |
| `GrpcPool.StubsConserved` | include/RPConPool.h:43-64 | idle + held = pool size in every run, after close too, from either initial flag |
| `GrpcPool.SleepersOutnumberReturns` | include/RPConPool.h:43-64 | after the stop no run without a spurious wakeup or another close lowers the number of sleepers beyond the threads with a stub to return |
| `GrpcPool.OneReturnReleasesOne` | include/RPConPool.h:59-64 | with the mutex free, any holder can return its stub so that the sleeper of choice, and only it, is released |
| `GrpcPool.ReleaseIsPossibleExactly` | include/RPConPool.h:37-64 | after the stop everybody can still be released iff the sleepers do not outnumber the threads with a stub to return |
| `GrpcPool.IdleConnectionsBesideSleepers` | include/RPConPool.h:46-48 | with more sleepers than returns to come, all stubs end up idle while somebody still sleeps |
| `GrpcPool.ReleasedGetterPassesNothingOn` | include/RPConPool.h:46-52 | at every step of every run after the stop, a getter not past its last flag test stays one until it finishes with null, and its own actions change neither the queue nor another thread |
| `GrpcPool.ReleasedGetterComesOut` | include/RPConPool.h:46-52 | with a stub idle after the stop and nobody past the last flag test, a released getter has its null after exactly four actions of its own, under any interleaving |
| `GrpcPool.ReleasedGetterUsesNull` | src/VerifyGrpcClient.cpp:8-9 | and the client then makes its call on that null |
| `GrpcPool.StrandingIsReachable` | include/RPConPool.h:37-64 | a pool of any size n has a run after which n + 1 getters sleep with n returns to come |
| `PoolUncontended.GetTakesTheFront` | src/MysqlPool.cpp:24-38 | an uncontended getConnection on an open pool takes the front of the queue |
| `PoolUncontended.GetBlocks` | src/MysqlPool.cpp:26-31 | on an empty queue with the flag unset or untested it ends asleep and changes nothing else |
| `PoolUncontended.GetReturnsNull` | src/RedisConPool.cpp:44-46 | after the stop it ends with null and changes nothing else |
| `PoolUncontended.GiveAppends` | src/RedisConPool.cpp:51-58 | an uncontended returnConnection appends to the back of the queue |
| `Pools.FreshPoolStartsRuns` | src/MysqlPool.cpp:4-23 | a constructed pool meets the monitor's initial state |
| `Pools.BlockingPool.Mysql` | src/MysqlPool.cpp:4-23 | the fill loop keeps exactly the connections opened before the first exception |
| `Pools.FillStopsAtFailure` | src/MysqlPool.cpp:8-21 | what the fill loop keeps is a prefix of the attempts, all good, ending at the first failure or not at all |
| `Pools.BlockingPool.Redis` | src/RedisConPool.cpp:3-28 | the fill loop keeps exactly the contexts that connected and authenticated, in order |
| `Pools.FillSkipsFailures` | src/RedisConPool.cpp:7-26 | what the fill loop keeps is, in order, the contexts of exactly the passes that connected and authenticated |
| `Pools.BlockingPool.GetConnection` | src/MysqlPool.cpp:24-38 | null, asleep or the front of the queue, as the monitor's uncontended run |
| `Pools.BlockingPool.ReturnConnection` | src/MysqlPool.cpp:39-46 | appended when open, dropped when stopped, as the monitor's uncontended run |
| `Pools.GrpcConnectionPool.constructor` | include/RPConPool.h:19-25 | poolSize stubs in order; the flag keeps whatever value it had |
| `Pools.GrpcConnectionPool.GetConnection` | include/RPConPool.h:43-56 | waits on an empty queue even when stopped, otherwise null without popping or the front, as the monitor's uncontended run |
| `Pools.GrpcConnectionPool.ReturnConnection` | include/RPConPool.h:59-63 | appends always, as the monitor's uncontended run |
| `MysqlDaos.MysqlDao.RegUser` | src/MysqlDao.cpp:23-63 | result, table and pool on every path, catch block included; the connection goes back exactly once |
| `MysqlDaos.MysqlDao.CheckUserExist` | src/MysqlDao.cpp:65-100 | true iff nobody has the name or the email, or it threw; the connection goes back exactly once |
| `MysqlDaos.MysqlDao.UpdatePassword` | src/MysqlDao.cpp:102-138 | the table after the update, true iff rows counted or it threw; the connection goes back exactly once |
| `MysqlDaos.MysqlDao.ExecuteUpdate` | src/MysqlDao.cpp:111-118 | sets the password of exactly the rows with both name and email; the count is positive iff one matched (or changed, as configured) |
| `MysqlDaos.MysqlDao.CheckUserPassword` | src/MysqlDao.cpp:140-184 | true with the matching row's data iff one matches, true with none of it on an exception |
| `MysqlDaos.MysqlDao.CheckUserEmailMatch` | src/MysqlDao.cpp:186-224 | true from an open pool iff a row has both or the query threw; the connection goes back to the end of the queue in exactly those cases and is lost in the others |
| `RedisMgrs.RedisMgr.Get` | src/RedisMgr.cpp:18-41 | a text reply up to its first NUL, any other reply and a null connection a failure; the connection goes back once |
| `RedisMgrs.RedisMgr.Set` | src/RedisMgr.cpp:43-70 | true iff the status reads OK or ok; the connection goes back once, the null of a closed pool is used |
| `RedisMgrs.RedisMgr.LPush` | src/RedisMgr.cpp:76-97 | true iff the reply is a positive integer; the connection goes back once, the null of a closed pool is used |
| `RedisMgrs.RedisMgr.LPop` | src/RedisMgr.cpp:99-114 | copies the text of any reply but null and nil; a reply without text costs the connection, every other one gives it back once |
| `RedisMgrs.RedisMgr.RPush` | src/RedisMgr.cpp:116-137 | as LPush |
| `RedisMgrs.RedisMgr.RPop` | src/RedisMgr.cpp:139-153 | as LPop |
| `RedisMgrs.RedisMgr.HSet` | src/RedisMgr.cpp:155-170 | true iff the reply is an integer; the connection goes back once, the null of a closed pool is used |
| `RedisMgrs.RedisMgr.HSetArgv` | src/RedisMgr.cpp:172-197 | as HSet |
| `RedisMgrs.RedisMgr.HGet` | src/RedisMgr.cpp:199-221 | as LPop, with the empty text on a failure |
| `RedisMgrs.RedisMgr.Del` | src/RedisMgr.cpp:223-235 | as HSet |
| `RedisMgrs.RedisMgr.ExistsKey` | src/RedisMgr.cpp:237-252 | true iff the reply is an integer other than 0; the connection goes back once, the null of a closed pool is used |
| `RedisMgrs.RedisMgr.Lookup` | src/RedisMgr.cpp:18-41 | against the store: the text under the key, key and text each up to the first NUL, or nothing iff no such key is stored; the connection goes back |
| `RedisMgrs.CommandsSettleAsMonitor` | src/RedisMgr.cpp:18-252 | every command gives back, leaves or misuses what it borrowed exactly where the monitor takes its Redis borrowers to |
| `Handlers.CStrIsUpToNul` | src/RedisMgr.cpp:37 | a C string is cut at its first NUL and nowhere else |
| `Handlers.StoredCodeReads` | src/LogicSystem.cpp:168-182 | the code read is the text stored under "code_" and the email, each up to its first NUL, so the whole of it when there is none |
| `RpcClients.RpcClient.Invoke` | src/VerifyGrpcClient.cpp:3-21 | waits, calls on null or answers, exactly as the pool and the status say; the stub goes back once |
| `UserTable.CountsDecide` | src/MysqlDao.cpp:74-90 | the two count queries are positive exactly when a row with either, or with both, exists |
| `UserTable.RegUserAnswersItsRow` | src/MysqlDao.cpp:42-56 | a positive answer is the uid of the row just appended; 0 iff the pool is closed or somebody has the name or the email, -1 otherwise |
| `UserTable.FindLoginFinds` | src/MysqlDao.cpp:150-164 | the login query finds a row iff one has that name and password |
| `UserTable.ResetTouchesOneRow` | src/MysqlDao.cpp:111-118 | a reset changes the password of at most one row, nothing else, and keeps the keys unique |
| `Handlers.WireDistinguishes` | include/Global.h:23-35 | different error codes have different numbers, 0 for success alone and 1001 to 1010 for the others |
| `Handlers.RegisterClassified` | src/LogicSystem.cpp:171-202 | fault-free registration: each error code iff the stored code and the table call for it |
| `Handlers.RegisterUnderFaults` | src/MysqlDao.cpp:40-61 | when calls fail: exactly when registration answers Success and exactly when a row is inserted; an inserted row is answered Error_User_Exist iff its call threw afterwards or gave no result row |
| `Handlers.ResetClassified` | src/LogicSystem.cpp:226-272 | fault-free reset: User_Not_Exist iff neither name nor email occurs, Update_Password iff one does but nothing counts as updated, and so on |
| `Handlers.LoginClassified` | src/LogicSystem.cpp:291-332 | fault-free login: incorrect iff no row matches, RPCFailed iff the service fails, otherwise the matching row's uid |
| `Handlers.CodeRequestsClassified` | src/LogicSystem.cpp:82-148 | the code requests answer by their table lookup alone, whatever the code service reports |
| `Handlers.RegisterCodeUnderFaults` | src/LogicSystem.cpp:82-105 | when calls may fail: passes iff nobody has the name or the email or, as written, the query threw |
| `Handlers.ResetCodeUnderFaults` | src/LogicSystem.cpp:127-148 | when calls may fail: passes iff a row has both or, as written, the query threw |
| `Handlers.ResetSuccessUnderFaults` | src/LogicSystem.cpp:247-272 | exactly when reset answers Success or User_Not_Exist if calls fail, as written and repaired, and exactly when the update is in the table |
| `Handlers.LoginPassesUnderFaults` | src/LogicSystem.cpp:296-323 | login passes its check iff a row matched or, as written, the query threw; the service alone decides the rest, and the uid was never set iff the query threw |
| `Handlers.ExceptionCountsAsSuccess` | src/MysqlDao.cpp:132-137 | one exception makes a reset answer Success without changing any row |
| `Accounts.TableRefinesReplay` | src/LogicSystem.cpp:150-273 | in every interleaving, faults included, the table read as a map is the replay of the logged writes; names, emails and uids stay unique |
| `Accounts.SuccessIsOneWrite` | src/LogicSystem.cpp:190-202 | fault-free: a register or reset answered Success iff the log holds its one write, and every other answer accounts for none |
| `Accounts.SuccessWithoutWrite` | src/MysqlDao.cpp:111-137 | as written, in every interleaving: a writer ends in Success without a write of its own iff its last call is an update that threw, unless it had taken effect on a row first |
| `Accounts.RepairedSuccessAlwaysWrites` | src/MysqlDao.cpp:132-137 | repaired: with catch blocks that return false, Success never comes without its write, whatever fails |
| `Accounts.RowChangesAreLogged` | src/MysqlDao.cpp:37-40 | no row changes without a log entry of the handler whose call changed it |
| `Accounts.WritesAreAuthorised` | src/LogicSystem.cpp:171-191 | every write was made by a request whose code equalled the stored code when it read it |
| `Accounts.CodesStand` | src/LogicSystem.cpp:171 | in every run the store holds under a key what the latest event on that key left there |
| `Accounts.WritesFollowTheirCode` | src/LogicSystem.cpp:168-191 | behind every write is an earlier moment at which the code of its request stood issued to the email it writes, neither expired nor replaced |
| `Accounts.ReplayIsLatest` | src/LogicSystem.cpp:190-203 | the replayed account holds the password of the most recent write and the uid of the registration |
| `Accounts.LoginSeesTheLatestWrite` | src/LogicSystem.cpp:291-309 | at any moment login passes iff the most recent write for the name set that password, and carries the uid assigned at registration |
| `Accounts.LoginAnswersTheAssignedUid` | src/LogicSystem.cpp:309-323 | fault-free: the uid asked for and answered with is still the assigned one when it is used |
| `Linearization.OccursStays` | src/LogicSystem.cpp:247-255 | a name or email found by the existence check is still there at the update |
| `Linearization.WritersLinearize` | src/LogicSystem.cpp:150-273 | fault-free: a registration or reset answers and acts as the whole handler run alone at its last call |
| `Server.LogicSystem.constructor` | src/LogicSystem.cpp:17-38 | the registered targets are exactly the six of the source |
| `Server.TargetsKeepTheirPromise` | src/LogicSystem.cpp:17-38 | what a POST to each of the five literal targets answers, by number, and does to the table when no call fails |
| `Server.TargetsSpare` | src/LogicSystem.cpp:17-38 | whatever fails: only /user_register adds a row, only it and /user_reset_password touch the table, and a reset touches only the password of rows with its name and email |
| `Server.LogicSystem.HandlePost` | src/LogicSystem.cpp:49-57 | unrouted iff unregistered; otherwise the answer, table and waiting condition of the handler of that target |
| `Server.LogicSystem.HandleGetVarifyCodeRegister` | src/LogicSystem.cpp:63-105 | one answer and no change of the table, as the handler's specification |
| `Server.LogicSystem.HandleGetVarifyCodeReset` | src/LogicSystem.cpp:107-149 | one answer and no change of the table, and one connection less exactly when an open pool's lookup comes back false |
| `Server.LogicSystem.HandleUserRegister` | src/LogicSystem.cpp:150-203 | one answer, the table, and exactly when it waits in a pool, as the handler's specification |
| `Server.LogicSystem.HandleUserResetPassword` | src/LogicSystem.cpp:204-273 | one answer, the table, and exactly when it waits in a pool, as the handler's specification |
| `Server.LogicSystem.HandleUserLogin` | src/LogicSystem.cpp:274-333 | one answer and exactly when it waits in a pool, as the handler's specification |
| `Server.HttpConnection.HandleReq` | src/HttpConnection.cpp:29-68 | a GET or POST whose handler comes back starts one write, 404 iff its literal target is none of the six; the promises of the literal target hold; a throwing handler or another method starts none |
| `UrlCode.HexRoundTrip` | src/GlobalTool.cpp:45-58 | FromHex undoes ToHex on a byte iff it is at most 35, so on every nibble |
| `UrlCode.FromHexReads` | src/GlobalTool.cpp:47-58 | a byte is read iff it is a letter or a digit, and in either case alike |
| `UrlCode.UrlEncode` | src/GlobalTool.cpp:59-77 | the loop's output is, byte by byte, the literal itself, '+' for a space, or '%' and the two digits; it decodes to its input, and a text of letters, digits and - _ . ~ is unchanged |
| `UrlCode.CodeIsSpelling` | src/GlobalTool.cpp:64-74 | the code of one byte, spelled out in characters |
| `UrlCode.EncodedConcat` | src/GlobalTool.cpp:59-77 | the encoding distributes over concatenation |
| `UrlCode.RoundTrip` | src/GlobalTool.cpp:45-77 | decoding undoes the encoding on every byte string |
| `UrlCode.Injective` | src/GlobalTool.cpp:59-77 | different byte strings have different encodings |
| `UrlCode.ImageIsCanonical` | src/GlobalTool.cpp:64-74 | the outputs are exactly the canonical texts |
| `UrlCode.EncodedLength` | src/GlobalTool.cpp:62-75 | length is the input's plus twice the escaped bytes |
| `UrlCode.CanonicalAlphabet` | src/GlobalTool.cpp:64-74 | the outputs hold letters, digits, - _ . ~, '+' and '%', and every '%' is followed by two upper-case hex digits |
| `Lifecycle.InvRun` | src/HttpConnection.cpp:8-89 | the lifecycle invariant over every order of events, with HandleReq keeping the thread for any length of time |
| `Lifecycle.AtMostOneWrite` | src/HttpConnection.cpp:12-26 | over every order of events and any number of threads a connection starts at most one write |
| `Lifecycle.CoursesAreExact` | src/HttpConnection.cpp:12-26 | in terms of events: the orders of a connection's own events over all runs are exactly those of accept, read, handler and arming, each failure being the end |
| `Lifecycle.NothingFollowsTheEnd` | src/HttpConnection.cpp:15-25 | after a failed accept, a failed read or a throwing handler nothing is written, and as written nothing is ever armed or closed by the timer |
| `Lifecycle.CausesComeFirst` | src/HttpConnection.cpp:12-26 | a response follows a read, a completed write its start, an expiry its arming and a close an expiry, in every run |
| `Lifecycle.ArmedBeforeCancel` | src/HttpConnection.cpp:21-22 | with one thread per context, or armed at Start, the deadline is armed before the write completion cancels it |
| `Lifecycle.SecondThreadLosesTheCancel` | src/HttpConnection.cpp:73-77 | with a second thread a finished connection can be closed by the timer that should have been cancelled |
| `Lifecycle.CloseTime` | src/HttpConnection.cpp:80-89 | the close time is the latest of arming, construction + 60 s and the moment the thread came free, unless a write completes by then |
| `Lifecycle.CloseTimeAlone` | src/HttpConnection.cpp:12-26 | alone on its thread, that is the latest of arming, expiry and the end of its own read handler |
| `Lifecycle.IdleAcceptArmsExpiredDeadline` | src/CServer.cpp:14-16 | an accept that took over 60 s arms a deadline already expired |
| `Lifecycle.ReadHasNoDeadline` | include/HttpConnection.h:39-40 | a connection still reading can go on for any length of time |
| `Lifecycle.RepairedDeadlineCoversTheRead` | src/HttpConnection.cpp:8-26 | repaired: armed at Start, the deadline closes at accept + 60 s or when the thread next comes free, and so covers the read |
| `Lifecycle.BothRepairsBoundTheHandler` | src/HttpConnection.cpp:8-26 | repaired further: with a thread always free to dispatch it, the deadline bounds a slow handler too, at accept + 60 s exactly |
| `Lifecycle.BlockedHandlerIsNeverClosed` | src/HttpConnection.cpp:21-22 | on the only thread of its context a handler that does not come back is never closed, as written and with the deadline armed at Start |
| `Lifecycle.RepairedCloseAfterSlowHandler` | src/HttpConnection.cpp:21-22 | a handler of any length d over the limit can be closed d after the accept even when armed at Start |
| `RoundRobin.AsioIOServicePool.constructor` | src/AsioIOServicePool.cpp:4-15 | one work guard and one thread for each context |
| `RoundRobin.AsioIOServicePool.GetIOService` | src/AsioIOServicePool.cpp:22-28 | returns the context at the index, always in bounds, and steps it cyclically |
| `RoundRobin.Dispatch` | src/CServer.cpp:12-38 | m rounds of the accept loop are given the services of the round-robin sequence from the index on |
| `RoundRobin.OneThreadPerContext` | src/AsioIOServicePool.cpp:11-13 | each context is run by exactly one thread |
| `RoundRobin.KthCall` | src/AsioIOServicePool.cpp:22-28 | the k-th call returns service k mod n |
| `RoundRobin.CountIsExact` | src/AsioIOServicePool.cpp:22-28 | the exact count of each service in any window |
| `RoundRobin.Fairness` | src/AsioIOServicePool.cpp:22-28 | in m consecutive calls each service is returned floor(m/n) or ceil(m/n) times |

## Left out

- RedisMgrs.RedisMgr.Lookup: `get` against a store of strings; the list and hash semantics of the server are not modelled, the other ten commands have only replies and the connection.
- RedisMgrs.RedisMgr.LPop: it, `RPop` and `HGet` copy the null text of an integer or array reply; the model ends there (`NoTextUse`), since the language promises nothing more.
- RpcClients.RpcClient.Invoke: the two clients share one shape and are one method; request and reply fields other than the error are not modelled, and the handlers take the call as an abstract answer.
- Pools.BlockingPool.Redis: a null reply to AUTH is dereferenced by the constructor; the model has no such attempt.
- Linearization.WritersLinearize: login is left to `Accounts.LoginSeesTheLatestWrite`; its password check and its RPC are two calls, and the password may change in between.
- Lifecycle.CloseTime: the exact time needs timers dispatched before the clock moves on while the thread is free; without that only the lower bound holds.
- Lifecycle.BothRepairsBoundTheHandler: takes it that some thread of the context is always free, and leaves aside that the socket would then need a strand.
- UrlCode.RoundTrip: the repository has no decoder; the one in the model follows section 2.1 of RFC 3986 and section 8.2.1 of RFC 1866.
- The handlers' interleavings do not also interleave with the pools: the classes in `Server` run one request with nobody in between, and `Accounts` takes each query as one atomic step.
- Starvation between getters: a new getter may overtake a woken one, so the model promises that some getter can act, not which.
- Statements and result sets are destroyed after their connection has been returned; what the connector does then is not part of this model.
- Destruction of a pool while threads wait in it, and `Singleton`, `MysqlMgr`, `AsioIOServicePool::Stop` and all of `CServer` but its calls for a context, which forward or tear down.
- Boost.Asio and Beast, hiredis, the MySQL connector, gRPC and the JSON library: each call is an abstract outcome. Exceptions other than SQLException and a JSON type error are not modelled.
- JSON text: a body is a parse error, a well-formed body that lacks a field, or a form. Echoed fields of the responses, headers other than the content type, HTTP version and keep-alive are not modelled.
- `ConfigMgr`, `SectionInfo`, `initSpdlog`, `main` and logging: setup with shallow facts only.
- SQL text, collation and 32-bit counts; whether affected rows counts changed or matched rows is a parameter.
