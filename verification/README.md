# A verified model of pi-controller's stateful components

pi-controller manages Raspberry Pi nodes, their GPIO devices and a small cluster around them. This project
models the parts of it whose correctness depends on state that outlives a call, and proves what holds of them
over all runs, all inputs and all points of failure. `dafny verify dfyconfig.toml` checks everything.

| component | specification and theorems | objects |
|---|---|---|
| schema migrations | `Schemas`, `Ordering`, `MigrationIds`, `Migrations`, `MigrationRuns`, `MigrationTheorems`, `MigrationStatus`, `Definitions`, `MigrationRecovery` | `MigratorService` |
| GPIO controller and mock backend | `GpioMock`, `OpLimiter`, `GpioController` | `GpioMock`, `GpioDevice` |
| WebSocket hub | `Hub` | `HubServer` |
| rate limiter | `RateLimit` | `RateLimit` |
| gRPC client connection | `Backoff`, `SingleFlight` | `RetryClient` |
| node discovery | `Discovery` | `DiscoveryService` |
| node and device services | `Tables`, `Outcomes`, `Readings` | `Services` |

Each component has a specification on values (a state, a step function, runs as sequences of steps) about which
the theorems are proved, and classes with the source's fields and loops whose methods are proved to do exactly
the specified step. Database calls, dials, clocks and the order in which Go ranges over a map are parameters:
every call that can fail has a flag that makes it fail.

## What the proofs found

Some promises hold only under a condition, or fail. The code was modelled as it is.

- **Equal or decreasing `applied_at` times.** `Down` reverts the migration with the latest time, which is the one
  applied last exactly when every other time is earlier; GORM's `First` breaks a tie by primary key, so the smaller
  ID, applied earlier, is reverted (`DownPicksLastIff`). With an increasing clock the records are a prefix of the
  sorted migrations in every run, whatever the scripts do and wherever Ups, Downs and Resets fail (`RunsOrdered`).
- **Down undoes Up, for migrations that all run, if and only if** the starting schema uses none of their names
  (`MirroredUndo`). Where it does, Ups alone still end in one place, however often they failed on the way
  (`PartialUpsEqualOneUp`).
- **A rolled-back schema is the starting schema if and only if** that schema used none of the names of the
  migrations rolled back: `CREATE ... IF NOT EXISTS` keeps an existing table that `Down` later drops
  (`DownsRestoreIff`).
- **A `Reset` that fails half way is repaired by the next successful `Up` if and only if** the record table was
  among the dropped ones, or no dropped table is one the migrations create or index
  (`FailedResetRepairedIff`, `ProductionRepairedIff`). With everything recorded and the record table kept, that
  `Up` succeeds and changes nothing (`InterruptedResetSticks`); with fewer recorded, if no call fails, it fails
  exactly when a migration still to run indexes a dropped table (`UpAfterFailedResetIff`). A table whose name has
  the form `sqlite_%` survives even a complete `Reset`; the underscore is a wildcard there (`ResetStartsOver`).
- **Signed migration IDs** pass `ValidateMigrationOrder`, and some sort out of numeric order: two IDs with a minus
  sign always, a plus before a minus always, a plus before an unsigned ID of smaller or equal digits, and a minus
  before an unsigned one only when both are zero (`StringOrderFitsIff`). The list `Up` uses is in numeric order
  exactly when it holds no such pair (`ValidatedSortIsNumericIff`).
- **`Initialize` and `Close` reset the backend but not `activePins`**: cache and backend agree exactly when no pin
  was configured, lost to a reset and not configured again (`SessionCoherent`).
- **`AllowCriticalPins` never opens a critical pin**, because the defaults put every critical pin on the restricted
  list (`CheckMeaning`).
- **Pin values other than 0 and 1** are accepted and hide edges: rising and falling edges are sure to differ by at
  most one exactly when a caller does not write both levels and a third value (`EdgesBalancedIff`).
- **An input pin of the mock backend always reads 0**: only outputs can be written, only inputs read, and configuring a
  pin sets it to 0 (`InputsReadLow`).
- **A direct send to an evicted client** sends on a closed channel. No other use of a channel can meet a closed one
  (`CrashIffSendToLeft`), and a client that stops reading and then pings gets there (`EvictedPingCrashes`).
- **The first retry wait is not capped** (`CapHoldsIff`).
- **`Delete` of a device is not atomic**: it is the one request that can return an error after changing the
  database (`FailedRequestChangedIff`).

## Model

| member | source | states |
|---|---|---|
| Schemas.MirrorUndoes | internal/migrations/definitions.go:44-77 | a script that only creates, run where its names are free, is undone exactly by its statements inverted in reverse order |
| Schemas.CreatesExactly | internal/migrations/definitions.go:44-65 | a creating script that succeeds adds exactly its own names, whatever existed before |
| Schemas.KeepsExisting | internal/migrations/definitions.go:44-65 | on any schema a creating script keeps every existing table and index as it is, and what it adds is what its statements say |
| Ordering.SortBySorts | internal/migrations/migrations.go:72-75 | the sort by ID orders by Go's string order and only rearranges |
| Ordering.StrictlySortedUnique | internal/migrations/migrations.go:203-206 | with distinct IDs the sorted list is determined by its elements |
| MigrationIds.ValidIdIff | internal/migrations/migrations.go:263-270 | the IDs that pass are exactly those of 14 digits, or of a sign and 13 digits |
| MigrationIds.StringOrderIsNumeric | internal/migrations/migrations.go:72-75 | on digit strings of one length, string order is numeric order, and equality is equality of numbers |
| MigrationIds.StringOrderFitsIff | internal/migrations/migrations.go:252-271 | for any two IDs that pass validation, signs included, the exact condition under which their string order is their numeric order |
| MigrationRuns.ApplyPushes | internal/migrations/migrations.go:87-107 | one transaction of Up pushes the next migration on the stack; it fails exactly when the script, the record or the commit does |
| MigrationRuns.UpResumes | internal/migrations/migrations.go:56-114 | Up skips what is recorded, keeps it, and stops at the first transaction that fails or after the last definition |
| MigrationRuns.DownPops | internal/migrations/migrations.go:117-167 | Down removes exactly the last applied migration and its effect on the schema, or changes nothing |
| MigrationRuns.DownPicksLastIff | internal/migrations/migrations.go:122-130 | whatever the clock did, of records with ascending IDs Down picks the last if and only if every other time is earlier |
| MigrationRuns.DownNeedsDefinition | internal/migrations/migrations.go:132-145 | a last record whose migration is not among the definitions cannot be rolled back: an error, and nothing changes |
| MigrationTheorems.RunsOrdered | internal/migrations/migrations.go:56-249 | after any run of Ups, Downs and Resets, failing anywhere, with any scripts and on any schema, the records are a prefix of the sorted IDs in applied_at order |
| MigrationTheorems.RunsExplained | internal/migrations/migrations.go:56-249 | after any run of Ups, Downs and complete Resets the schema is the starting one, or what the last Reset left, with the Ups of the records folded over it; Downs, where there are any, must undo the Ups |
| MigrationTheorems.SuccessfulUpCompletes | internal/migrations/migrations.go:56-114 | an Up that returns no error, after any history, leaves every definition recorded; and the whole fold in the schema, in the runs of RunsExplained |
| MigrationTheorems.ResumedUpsAgree | internal/migrations/migrations.go:56-114 | any two runs that end in a successful Up end with the same recorded IDs, and in the runs of RunsExplained with the same schema, whatever failed on the way |
| MigrationTheorems.PartialUpsEqualOneUp | internal/migrations/migrations.go:56-114 | any number of failing Ups followed by a successful one equal a single Up in which nothing fails, and that one succeeds; with any scripts, on any schema |
| MigrationTheorems.UpIdempotent | internal/migrations/migrations.go:77-82 | when everything is recorded a further Up succeeds and changes nothing, whatever the schema is |
| MigrationTheorems.DownsRestoreStart | internal/migrations/migrations.go:117-167 | as many Downs as there are records give back the starting schema and an empty record table |
| MigrationStatus.PendingIsSuffix | internal/migrations/migrations.go:286-316 | in every state of any run the pending migrations are, in order, the sorted definitions after the recorded prefix |
| MigrationStatus.StatusMatchesRecords | internal/migrations/migrations.go:170-209 | in every state of any run Status lists every definition in ID order; exactly the recorded prefix is applied, each with its record's time |
| MigrationTheorems.ResetStartsOver | internal/migrations/migrations.go:220-249 | drops that all succeed empty the database if and only if no table name has SQLite's reserved form, and the Reset then equals Up from an empty database |
| Migrations.KeptByResetIffLike | internal/migrations/migrations.go:225 | the tables Reset keeps are those whose names match sqlite_% by the rules of LIKE |
| MigrationRecovery.FailedResetRepairedIff | internal/migrations/migrations.go:220-249 | from any reachable state, fully migrated or not: after a Reset that failed at any point, a successful Up leaves every name of the definitions existing if and only if the record table was dropped or no dropped table is created or indexed by them |
| MigrationRecovery.UpAfterFailedResetIff | internal/migrations/migrations.go:240-248 | exactly when that Up succeeds if no call fails: what it still runs must index none of the dropped tables (of the starting schema's, when the record table is gone) |
| MigrationRecovery.InterruptedResetSticks | internal/migrations/migrations.go:240-248 | with everything recorded and the record table kept, that Up succeeds and changes nothing, so dropped tables stay lost |
| MigrationRecovery.ProductionRepairedIff | internal/migrations/migrations.go:220-249 | for the production migrations: a successful Up after a failed Reset brings everything back if and only if the record table or none of the four tables was dropped |
| MigrationRecovery.DownsRestoreIff | internal/migrations/migrations.go:117-167 | the migrator's own Downs of everything recorded empty the record table and restore the starting schema if and only if it used none of the recorded migrations' names |
| MigrationRecovery.MirroredSound | internal/migrations/migrations.go:117-249 | for mirrored definitions with free, unreserved names every run with complete Resets meets the conditions of RunsExplained, over the starting schema or what a Reset leaves of it |
| MigrationRecovery.ProductionRunsExplained | internal/migrations/definitions.go:8-252 | so for the production migrations: after any run of Ups and Downs failing anywhere and complete Resets, the recorded prefix explains the schema |
| Definitions.MirroredUndo | internal/migrations/definitions.go:44-252 | mirrored Downs of definitions with distinct names undo the Ups on every schema that uses none of the names, and, when all Ups run, on no other |
| Definitions.ProductionMirrored | internal/migrations/definitions.go:8-252 | each production Down inverts its Up in reverse order, and no name is created twice in all five |
| Definitions.ProductionSorted | internal/migrations/definitions.go:8-41 | the production IDs increase strictly in the listed order |
| Definitions.ProductionValid | internal/migrations/definitions.go:8-41 | the production IDs pass ValidateMigrationOrder and carry no sign |
| Definitions.ProductionSchema | internal/migrations/definitions.go:44-252 | the production Ups add the four tables and, of 28 names in all, indexes that are each on the table their own name tells; what was there stays |
| Definitions.ProductionGuaranteed | internal/migrations/definitions.go:8-252 | on any schema that uses none of the names, all five Ups run and every Down undoes its Up |
| MigratorService.Database.ExecScript | internal/migrations/definitions.go:44-65 | a script runs statement by statement and succeeds exactly when no statement is rejected or fails |
| MigratorService.Migrator.ApplyInTransaction | internal/migrations/migrations.go:86-107 | migration and record are committed together or the database is as before |
| MigratorService.Migrator.RevertInTransaction | internal/migrations/migrations.go:147-163 | rollback and removal of the record are committed together or the database is as before |
| MigratorService.Migrator.Up | internal/migrations/migrations.go:56-114 | the loop over the sorted definitions does the specified Up and leaves the definitions sorted |
| MigratorService.Migrator.Down | internal/migrations/migrations.go:117-167 | the search and the transaction do the specified Down; a record without a definition is an error that changes nothing |
| MigratorService.Migrator.StatusReport | internal/migrations/migrations.go:170-209 | the loops over records and definitions produce the specified status list |
| MigratorService.Migrator.GetPendingMigrations | internal/migrations/migrations.go:286-316 | the filter loop produces the specified pending list |
| MigratorService.Migrator.Reset | internal/migrations/migrations.go:220-249 | the drop loop outside a transaction and the final Up do the specified Reset |
| MigratorService.Migrator.ValidateMigrationOrder | internal/migrations/migrations.go:252-283 | succeeds exactly on lists of distinct 14-character numerals, and an error names an offending ID |
| MigratorService.ValidatedSortIsNumericIff | internal/migrations/migrations.go:72-75 | for definitions that pass validation, the numbers of the list Up uses increase if and only if every two IDs fit in the order of their strings |
| MigratorService.ValidatedSortIsNumeric | internal/migrations/migrations.go:72-75 | for definitions that pass validation and carry no sign, the order Up uses is numeric order |
| GpioMock.RunsKeepHandlersMatch | pkg/gpio/mock.go:373-396 | over every run, handlers and event types share one key set, contained in the configured pins |
| GpioMock.EventsAreEdges | pkg/gpio/mock.go:105-147 | over any run that leaves a watched output pin configured as it is, its events are exactly the edges of the values written to it |
| GpioMock.BothEdgesAlternate | pkg/gpio/mock.go:132-133 | a both-edges handler gets one event per value change, and never the same value twice in a row |
| GpioMock.RisesMinusFalls | pkg/gpio/mock.go:127-134 | for binary values, rises minus falls is the net change of the pin and together they are all changes |
| GpioMock.EdgesBalancedIff | pkg/gpio/mock.go:105-147 | for a caller that writes values from any set: rising and falling edges always differ by at most one if and only if the set does not hold both levels and a third value |
| GpioMock.EnabledEmits | pkg/gpio/mock.go:373-385 | an interrupt can be enabled exactly on a configured pin; an output then emits exactly the edges of its writes, of the given type and to the given handler |
| GpioMock.DisabledIsSilent | pkg/gpio/mock.go:388-396 | after its interrupt is disabled a pin emits nothing, over any run that does not enable one again |
| GpioMock.PwmSettingsStay | pkg/gpio/mock.go:188-215 | PWM settings are accepted exactly for an output, 1 to 10000 Hz and 0 to 100 percent, and stay the pin's over any run until set again |
| GpioMock.InputsReadLow | pkg/gpio/mock.go:67-102 | a read succeeds exactly on a configured input, and in every reachable state returns 0 |
| GpioMock.MockGpio.WritePin | pkg/gpio/mock.go:105-147 | the write and its edge detection do the specified step, error cases included |
| GpioMock.MockGpio.ListConfiguredPins | pkg/gpio/mock.go:169-185 | the listing has every configured pin exactly once with its current state |
| OpLimiter.RunsAccounted | pkg/gpio/controller.go:237-258 | over every run the counter equals the number of goroutines still asleep, stays within the maximum, and an admission without a sleeper is a timeout old |
| OpLimiter.WakeBalanced | pkg/gpio/controller.go:248-255 | the guard activeOps > 0 never suppresses a decrement |
| OpLimiter.WindowBound | pkg/gpio/controller.go:237-258 | however late the goroutines run, the (k+max)-th admission comes at least the operation timeout after the k-th |
| GpioController.SecureDefaultsRestrict | pkg/gpio/controller.go:108-146 | the defaults drop no caller restriction, restrict every critical pin at every level, and add nothing else below paranoid |
| GpioController.CheckMeaning | pkg/gpio/controller.go:176-224 | with the defaults applied the filter accepts exactly a listed operation on a pin from 0 to 27 that is not restricted, not 0, 1, 14 or 15, and allowed (at paranoid level 18 to 21), whatever AllowCriticalPins says |
| GpioController.UnlistedRefused | pkg/gpio/controller.go:184-190 | configure, read, write, pwm and interrupt calls whose name is not on a non-empty list are refused and change nothing but the counter |
| GpioController.ListedPerforms | pkg/gpio/controller.go:176-465 | with a free slot, a listed name and an open pin a call succeeds exactly when cache and backend accept its arguments |
| GpioController.SessionCoherent | pkg/gpio/controller.go:149-465 | after any calls, refused and failing ones and resets included, cache and backend hold the same pins with equal direction, pull mode and value if and only if no pin was configured, reset and not configured again |
| GpioController.ResetCoherentIffEmpty | pkg/gpio/controller.go:149-168 | a backend reset keeps cache and backend in agreement if and only if no pin is active |
| GpioController.RunsConfined | pkg/gpio/controller.go:176-314 | in every reachable state, resets included, only permitted pins are configured or cached and the counter is balanced |
| GpioController.ControllerConfined | pkg/gpio/controller.go:108-146 | a configured pin lies in 0..27, on the allowed list if there is one, off the caller's restricted list and the critical pins; at paranoid level among 18 to 21 |
| GpioController.CallsThroughCounter | pkg/gpio/controller.go:176-180 | the counter after any calls is the counter run on one request per call and one wake-up per goroutine |
| GpioController.CallRateBound | pkg/gpio/controller.go:176-258 | of any maxOps + 1 consecutive controller calls that get a slot, whatever they are, the last comes at least the operation timeout after the first |
| GpioDevice.Controller.InitializeSecureDefaults | pkg/gpio/controller.go:108-128 | the nested loop over critical and restricted pins extends the caller's own configuration object to the specified defaults |
| GpioDevice.Controller.IsPinAllowed | pkg/gpio/controller.go:176-224 | counter and linear searches give the specified verdict, and the slot is taken whatever the verdict |
| GpioDevice.Controller.ConfigurePin | pkg/gpio/controller.go:275-325 | filter, PWM checks, backend and cache update do the specified call; refused unless "configure" is listed |
| GpioDevice.Controller.ReadPin | pkg/gpio/controller.go:328-360 | does the specified call and returns the backend's value, or Low with an error; refused unless "read" is listed |
| GpioDevice.Controller.WritePin | pkg/gpio/controller.go:363-406 | does the specified call on cache and backend; refused unless "write" is listed |
| GpioDevice.Controller.SetPWM | pkg/gpio/controller.go:431-465 | does the specified call and leaves the cache; refused unless "pwm" is listed |
| GpioDevice.Controller.ListConfiguredPins | pkg/gpio/controller.go:418-428 | the listing has every cached pin exactly once |
| GpioDevice.ListingsAgree | pkg/gpio/controller.go:418-428 | in a coherent state the controller's and the backend's listings have the same length and elements |
| Hub.ReachableOk | internal/websocket/server.go:180-234 | in every reachable state a channel is open exactly while its client is a member, and a queue holds at most 256 messages |
| Hub.CrashIffSendToLeft | internal/websocket/server.go:293-308 | every send on and every close of a closed channel panics; in a reachable state the one step that does so is a direct send to a client that has left |
| Hub.EvictedPingCrashes | internal/websocket/server.go:442-453 | a client evicted by unread broadcasts that then gets a direct reply reaches the crash |
| Hub.LeftForGood | internal/websocket/server.go:200-206 | a client that has left never returns, and nothing is queued for it again |
| Hub.Bookkeeping | internal/websocket/server.go:457-485 | the hub's connections and topic sets are those the run's own requests define |
| Hub.DeliveryGapFree | internal/websocket/server.go:180-220 | consumed plus queued messages of a member are exactly the welcome message and everything offered since; of a client that left, a prefix of that |
| Hub.LeavesExactlyWhen | internal/websocket/server.go:271-290 | a member leaves if and only if it unregisters or an offered message finds its queue full, having been delivered everything offered before |
| Hub.ReaderGetsAll | internal/websocket/server.go:395-425 | after as many rounds of the writer as messages are queued, a client has been sent all of them in order; a member exactly what was offered to it |
| HubServer.Client.WriteNext | internal/websocket/server.go:401-412 | the writer sends the oldest queued message and takes it off the queue, and ends only on a closed and drained channel |
| HubServer.Server.RegisterClient | internal/websocket/server.go:186-198 | registering a new connection and its welcome do the specified step |
| HubServer.Server.UnregisterClient | internal/websocket/server.go:200-206 | the channel is closed only if the client is still a member |
| HubServer.Server.BroadcastMessage | internal/websocket/server.go:210-220 | ranging over the member set in any order, with evictions during the loop, does the specified step |
| HubServer.Server.BroadcastToTopic | internal/websocket/server.go:271-290 | the same for the members subscribed to the topic |
| HubServer.Server.SendToClient | internal/websocket/server.go:293-308 | for any registered client, still a member or not, does the specified step, the panic on a closed channel included |
| RateLimit.EvictionInvisible | internal/api/middleware/ratelimit.go:181-195 | on every timed sequence of requests and cleanups the limiter answers like one that never evicts |
| RateLimit.WindowBound | internal/api/middleware/ratelimit.go:72-91 | after any history a client gets at most burst + L/p admissions in a window of length L, and none with a burst that is not positive |
| RateLimit.KeepsToRateAdmitted | internal/api/middleware/ratelimit.go:72-91 | the converse: a client whose requests in every window number at most burst + L/p is never refused, whatever others do and cleanups delete |
| RateLimit.UnlimitedIff | internal/api/middleware/ratelimit.go:150-154 | the limit is infinite exactly when the rate is negative or above one per nanosecond |
| RateLimit.UnlimitedAdmitsAll | internal/api/middleware/ratelimit.go:150-154 | outside those rates every request of every run is admitted |
| RateLimit.CleanDropsIff | internal/api/middleware/ratelimit.go:181-195 | a cleanup deletes a bucket if and only if it is full and the last cleanup is more than the interval ago |
| RateLimit.RateLimiter.Handle | internal/api/middleware/ratelimit.go:72-121 | one request gets the specified decision and bucket; unidentified and listed clients are not limited |
| RateLimit.RateLimiter.CleanupIdle | internal/api/middleware/ratelimit.go:181-195 | ranging over the table in any order deletes exactly the idle buckets |
| Backoff.ExactIsClosed | internal/grpc/client/client.go:350-354 | without truncation the k-th wait is the closed form, for every k |
| Backoff.ClosedIsPower | internal/grpc/client/client.go:350-354 | the closed form of the k-th wait is the capped power min(initial * m^k, max) |
| Backoff.DelayBounds | internal/grpc/client/client.go:350-354 | with truncation waits never decrease, stay within the cap, and are at most the closed form |
| Backoff.WholeMultiplierExact | internal/grpc/client/client.go:350-354 | for a whole multiplier the k-th wait is exactly min(initial * m^k, max) |
| Backoff.DefaultWaits | internal/grpc/client/client.go:154-165 | with the retry fields unset the waits start at one second and double up to a minute |
| Backoff.TotalBound | internal/grpc/client/client.go:329-355 | all waiting together is at most initial + (n - 1) * max |
| Backoff.TotalAtLeast | internal/grpc/client/client.go:329-355 | and at least n times the initial delay |
| Backoff.CapHoldsIff | internal/grpc/client/client.go:330-354 | all waits respect the cap if and only if the initial delay does |
| SingleFlight.SingleFlightHolds | internal/grpc/client/client.go:183-266 | in every interleaving of any number of callers, the flag is set exactly while one caller is in the retry loop, never two are, connected holds exactly when a connection is set, and every other dialed connection was closed |
| SingleFlight.LoopEnds | internal/grpc/client/client.go:314-359 | each step of the caller in the loop brings it nearer to its end, no other caller's step touches the flag, and leaving clears it |
| SingleFlight.EntryBound | internal/grpc/client/client.go:314-332 | a caller that enters sets the flag; in every run that follows it makes at most 2 * MaxRetries + 1 steps of its own before it is out |
| SingleFlight.LeavesLoopIff | internal/grpc/client/client.go:329-355 | a caller leaves the loop exactly when connected, cancelled, or after its last attempt; a failed attempt before that is followed by the scheduled wait and the next attempt |
| SingleFlight.DisconnectDrops | internal/grpc/client/client.go:235-266 | in every reachable state a disconnect leaves no connection open, every dialed one closed, and callers and flag as they were |
| SingleFlight.ConnectConnects | internal/grpc/client/client.go:183-232 | in every reachable state a connect with a successful dial leaves the client connected, by one dial and only if it was not |
| RetryClient.Client.Connect | internal/grpc/client/client.go:183-232 | does the specified critical section; succeeds exactly when connected already or the dial succeeds |
| RetryClient.Client.Disconnect | internal/grpc/client/client.go:235-266 | afterwards nothing is connected and every dialed connection is closed, whether or not closing reports an error |
| RetryClient.Client.ConnectWithRetry | internal/grpc/client/client.go:314-359 | at most MaxRetries attempts with the scheduled waits; the outcome says which dials failed and whether the context ended, and the flag is clear on every exit |
| Discovery.LogsMatch | pkg/discovery/mdns.go:317-456 | the events of every non-static ID have the form (Discovered Updated* Lost)* with at most one open group, and replaying them tells whether the node is in the table |
| Discovery.SweepDropsIff | pkg/discovery/mdns.go:424-456 | a sweep drops a node if and only if it is not static and was last seen more than three intervals ago |
| Discovery.LastSeenIsLastObserved | pkg/discovery/mdns.go:317-331 | a node's LastSeen is the time of its last observation in the run |
| Discovery.TypeIsAsEntered | pkg/discovery/mdns.go:321-331 | a node whose ID is never loaded carries the service type of the observation that entered it |
| Discovery.GoneForGood | pkg/discovery/mdns.go:424-456 | from the empty table: a node never loaded or seen as static, last seen at t, is gone for good after a sweep later than t + 3 intervals |
| Discovery.GoneInFive | pkg/discovery/mdns.go:407-456 | from the empty table: with sweeps every two intervals it is gone, and stays gone, from one no later than t + 5 intervals |
| Discovery.StaticStays | pkg/discovery/mdns.go:213-256 | a node loaded as static is in the table for ever, however long it is not seen |
| DiscoveryService.NodeTable.PerformDiscovery | pkg/discovery/mdns.go:317-343 | the loop over the observed nodes does the specified scan |
| DiscoveryService.NodeTable.CleanupStaleNodes | pkg/discovery/mdns.go:424-456 | the first pass collects exactly the stale IDs once each, in any order, and the second drops them |
| Tables.RequestKeeps | internal/services/gpio.go:159-381 | whichever call fails, the state after a request and after each write inside it keeps referential integrity and uniqueness |
| Tables.NodeRequestKeeps | internal/services/node.go:183-466 | the same for the node requests: names and IPs of live nodes stay distinct, and no node with live devices disappears |
| Tables.ReachableIntegrity | internal/services/node.go:183-466 | every state serialised requests can reach from an empty database has integrity |
| Tables.FailedRequestChangedIff | internal/services/gpio.go:253-283 | a request that returns an error changed the database if and only if it is a device deletion that failed after deleting readings |
| Tables.DevicesStayPut | internal/services/gpio.go:210-250 | no request moves a device to another pin or node, or revives a deleted one |
| Tables.WriteThenReadRecords | internal/services/gpio.go:286-381 | a read after a successful write records the written value |
| Tables.PinFreedByDeletion | internal/services/gpio.go:169-175 | a pin in use is refused, its node cannot be deleted, and deleting the device frees both |
| Tables.NameFreed | internal/services/node.go:250-259 | a node's name becomes free exactly when its rename is accepted |
| Tables.SinceKeeps | internal/services/gpio.go:432-447 | the cleanup keeps every reading from the cutoff on as often as it was there, and no older one |
| Outcomes.SuccessMeansNoFailure | internal/services/node.go:183-466 | a request that succeeds met no failing call, but for recording the reading of a write |
| Services.NodeService.Create | internal/services/node.go:183-241 | a success adds one live row, the only one of its name and IP; without a failing call it succeeds exactly if neither is held by a live node and the cluster is known; an error changes nothing; integrity holds after every write |
| Services.NodeService.Update | internal/services/node.go:244-336 | a success sets exactly the requested fields of a live node, which stays the only one of its name and IP; without a failing call it succeeds exactly if they are free; an error changes nothing; integrity holds after every write |
| Services.NodeService.Delete | internal/services/node.go:339-364 | a success makes exactly this node not live and leaves no live device on it; without a failing call it succeeds exactly for a live node without live devices; an error changes nothing; integrity holds after every write |
| Services.NodeService.Provision | internal/services/node.go:399-435 | a success sets only the status of a live node; without a failing call it succeeds exactly for a live node and a known cluster; an error changes nothing; integrity holds |
| Services.NodeService.Deprovision | internal/services/node.go:438-466 | a success sets only the status of a live node; without a failing call it succeeds exactly for a live node; an error changes nothing; integrity holds |
| Services.GPIOService.Create | internal/services/gpio.go:159-207 | a success adds the one live device on its pin, on a live node; without a failing call it succeeds exactly if the node is live and the pin free; an error changes nothing; integrity holds after every write |
| Services.GPIOService.Update | internal/services/gpio.go:210-250 | a success sets exactly the requested settings and keeps node, pin and value; without a failing call it succeeds exactly for a live device; an error changes nothing; integrity holds after every write |
| Services.GPIOService.Delete | internal/services/gpio.go:253-283 | after a success the device is not live and none of its readings is left; after an error the device is as before and its readings are all there or all gone; every other device and reading is kept; integrity holds after every write |
| Services.GPIOService.Read | internal/services/gpio.go:286-324 | a success appends exactly one reading, of the stored value of a live active device; without a failing call it succeeds exactly for such a device; an error changes nothing; integrity holds |
| Services.GPIOService.Write | internal/services/gpio.go:327-381 | a success stores the value in a live active output and appends at most one reading, which records it, exactly one if no call fails; an error changes nothing; integrity holds after every write |
| Services.GPIOService.GetReadings | internal/services/gpio.go:384-429 | page and total as specified, or nothing when a query fails |
| Services.GPIOService.CleanupOldReadings | internal/services/gpio.go:432-447 | the reported count and the surviving readings add up to the table before; readings from the cutoff on are kept as often as they were stored and no older one is left, or nothing changed; integrity holds |
| Readings.PagesCoverAll | internal/services/gpio.go:384-429 | enough pages of any size are together every matching reading as often as it is stored, newest first, and every page reports their number |
| Readings.LaterPagesEmpty | internal/services/gpio.go:404-411 | a page is empty exactly when its offset is past the last matching reading |
| Readings.UnlimitedGetsAll | internal/services/gpio.go:404-411 | without limit and offset one query returns every matching reading, newest first |

## Left out

- Columns, constraints and rows of the migrated tables: the schema is the set of table and index names. That the listing of tables in `Reset` can itself fail, before anything is dropped, is left out too.
- Upper and lower case of names: SQLite compares identifiers without regard to ASCII case, the model compares them exactly, so a name stands for its lower-case form. A table `Nodes` counts as using the name `nodes`.
- `sqlite_sequence`, the table SQLite creates for `AUTOINCREMENT` columns: its name has the reserved form, so the listing in `Reset` leaves it out, and it is absent from the model's tables.
- Definitions.ProductionGuaranteed: speaks of names only. The last performance index has `datetime('now', ...)` in its `WHERE` clause (internal/migrations/definitions.go:234); by SQLite's rules for date functions in indexes it raises an error as soon as `gpio_readings` has rows.
- Migrations are scripts of the four DDL statements the repository uses, not arbitrary Go functions; the list of definitions is fixed during a run.
- Go's sort is not stable; where two definitions share an ID the order the model gives them is one of those Go may choose.
- SQLite's own uniqueness constraints: a call they reject is one of the calls that fail. In particular the unique indexes on a node's name and MAC (internal/models/node.go:12-14) cover soft-deleted rows, so the name of a deleted node stays blocked although the service's own lookup finds it free.
- Node fields other than name, IP, MAC and status, device names, descriptions and configuration, and the cluster a node is assigned to: they take part in no property here. `UpdateLastSeen` (internal/services/node.go:367-377) writes only such a field.
- After a panic the hub's methods are not called any more: a crash of one goroutine ends the process.
- The hub's own broadcast channel and its shutdown, write deadlines and failing writes to the peer, and JSON encoding; each hub action is atomic.
- RateLimit.RateLimiter.Handle: does not model the panic for a rate of zero requests per minute, because Go divides by it; all rate functions require it not to be zero.
- The conversion of a float outside the range of `time.Duration`, which a large enough multiplier reaches and whose result Go leaves to the implementation; delays are unbounded integers.
- Floating-point rounding in token counts and in delays; the token bucket is exact and delays are truncated to whole nanoseconds.
- Get-and-allow of a rate limiter bucket and the token check of a cleanup are single steps at one time.
- The transport state that `IsConnected` also looks at, heartbeats, and the RPCs of the gRPC client.
- Parsing of static node addresses, the network scan, and starting and stopping the discovery service.
- SPI, I2C, analog values and random mock events, time stamps in pin states, the audit log, and the periph.io backend.
- `GetPinState` and `ReadAnalog` of the controller only take a slot in the model; their results come from the backend unchanged.
- `List` and the other read-only queries of the services.
