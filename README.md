# Hot-reload core of kitex-contrib/config-file, in Dafny

kitex-contrib/config-file feeds a Kitex client or server its governance
policies (retry, circuit breaking, timeouts, rate limits) from a local YAML
file and reapplies them whenever the file changes. This project models the
reload pipeline as sequential state machines and proves what each stage does:

- **Keys** (`keys.dfy`): the routing key `from/to` naming a client/server
  pair, and `ParseKey`, which splits it back; composing then parsing is the
  identity on names without "/".
- **Parser** (`parser.dfy`): the decoded file, a map from routing key to that
  pair's configuration record, with exact-key lookup. YAML decoding is a
  parameter (`Decoder`).
- **FileWatch** (`filewatcher.dfy`): the keyed watcher of one file. A
  registry of parse handlers rejects a taken key; the listener loop is a pure
  step function over a sequence of abstract events (`Step`, `Loop`) and an
  imperative `Start` that drives the registry and is proved to follow it.
  Handler calls are recorded in `dispatches`.
- **Monitor** (`monitor.dfy`): one routing key of a shared watched file. It
  registers its parse handler with the watcher, decodes each new file into its
  manager, caches the entry for its key and fans out to its keyed callbacks.
- **ConfigWatch** (`watch.dfy`): the older client-side watcher that owns its
  file watcher and runs its callbacks in registration order.
- **Sets** (`sets.dfy`): the shadow set each policy adapter keeps, and
  `Diff`, which tells the adapter which methods left the file.
- **Retry**, **CircuitBreaker**, **Limit** (`retry.dfy`,
  `circuit_breaker.dfy`, `limit.dfy`): the policy adapters' change callbacks.
  The framework's containers are modelled by the calls made on them and the
  table those calls leave behind; each callback is proved to leave exactly the
  reconciled table (`Reconciled`, `CBReconciled`) or, for the limiter, to keep
  the updater in step with the current option.

Go map iteration order is unspecified, so every loop over a map is stated
with `Common.EachOnce`: each key visited exactly once, in some order. Callbacks
are identities, and invoking one appends it to a trace field.

Where the library's design intent and its code differ, the model follows the
code:

- A routing miss (the file decodes but has no entry for the key) overwrites
  the cached config with nil rather than keeping the last known one
  (monitor/monitor.go:124-128, client/watch.go:86-90).
- Stopping a watcher whose stop channel is already closed, by a second stop
  or after a Remove event closed it, closes a closed channel, which is a Go
  runtime panic; the model reports it as `panicked`.
- The keyed file watcher and the monitor fan out in Go map order, not in
  registration order; only `ConfigWatcher` keeps registration order.
- A failed read on a Write event ends the listener loop for good
  (filewatcher/filewatcher.go:128-132) instead of dropping the one event.
- A taken key is an error in the file watcher's registry but an overwrite in
  the monitor's callback registry.

## Model

| member | source | states |
|---|---|---|
| Sets.Diff | utils/set.go:24-32 | Returns every key of `s` that is not a key of `other` exactly once, in unspecified order; a key mapped to false in `other` still counts as present; the result is no longer than `s` and is empty exactly when every key of `s` is in `other`. |
| Sets.ThreadSafeSet.constructor | utils/set.go:6-9 | The zero value holds the empty set. |
| Sets.ThreadSafeSet.DiffAndEmplace | utils/set.go:12-18 | Returns the old set's keys missing from `other`, each once, and afterwards the stored set is `other`. |
| Sets.DiffAndEmplaceTwice | utils/set.go:12-18 | Calling it twice with the same set: the first call reports the old keys missing from the set, the second reports nothing and the set stays stored. |
| Sets.DiffAndEmplaceOnZero | utils/set.go:6-18 | The first call on a zero-value set reports nothing. |
| Keys.GetKey | monitor/key.go:41-43 | The key is the caller's service name, one "/", then the callee's service name. |
| Keys.Split | monitor/key.go:46 | Splitting on a one-character separator gives one more piece than there are separators, and no piece contains the separator. |
| Keys.SplitJoin | monitor/key.go:46 | Joining the pieces with the separator gives the input back. |
| Keys.ParseKey | monitor/key.go:45-56 | Succeeds exactly when the key holds one "/"; a failure carries the key; on success the client and server names contain no "/", composing them gives the key back, and no tags are set. |
| Keys.ParseKeyOfGetKey | monitor/key.go:41-56 | Parsing `GetKey(from, to)` returns `from` and `to` whenever neither contains "/". |
| Keys.ParseKeyOfSlash | monitor/key.go:45-56 | "/" alone parses to two empty names. |
| Parser.Manager.GetConfig | parser/client.go:31-39 | Returns the entry stored under exactly the key, and nil exactly when there is none. |
| Parser.GetConfigExact | parser/server.go:25-33 | Lookup is by exact string: storing under a key answers that key only, other keys keep their answer, and an empty manager answers nil. |
| FileWatch.StepEnds | filewatcher/filewatcher.go:122-149 | One iteration (`Step`) returns exactly on an event that ends the listener, with the exit that event names; otherwise `done` ends up closed exactly when it was or the event carried Remove; only a Write whose read succeeded dispatches, its bytes. |
| FileWatch.Loop | filewatcher/filewatcher.go:119-151 | The listener consumes at most the given events; it waits only after consuming all of them; a closed stop channel stays closed. |
| FileWatch.LoopExit | filewatcher/filewatcher.go:119-151 | The listener waits only when no consumed event ends it; otherwise the last consumed event is the first that does and fixes the exit: a failed read, a closed Events or Errors channel, the `done` case, or a Remove with `done` already closed (a panic); a value on the Errors channel never ends it. |
| FileWatch.FailedReadEndsLoop | filewatcher/filewatcher.go:127-132 | A Write whose read fails ends the listener at once and dispatches nothing. |
| FileWatch.LoopDispatchesWrites | filewatcher/filewatcher.go:127-137 | The handlers receive exactly the bytes of each handled Write whose read succeeded, in event order; a failed read dispatches nothing. |
| FileWatch.LoopClosesDoneOnRemove | filewatcher/filewatcher.go:138-141 | After the loop the stop channel is closed exactly when it was closed before or a handled event carried Remove. |
| FileWatch.RemoveAfterStopPanics | filewatcher/filewatcher.go:113-116 | A Remove after the stop channel was closed closes it again, which panics and ends the loop after the write it carried was dispatched. |
| FileWatch.NewFileWatcher | filewatcher/filewatcher.go:37-58 | Fails when the watch backend cannot be created, when the path cannot be inspected, and when the file does not exist; otherwise a fresh watcher with an empty registry and an open stop channel. |
| FileWatch.FileWatcher.constructor | filewatcher/filewatcher.go:51-55 | A new watcher has the path, no handlers and an open stop channel. |
| FileWatch.FileWatcher.RegisterCallback | filewatcher/filewatcher.go:64-78 | A taken key is an error that keeps the existing handler; a new key adds exactly that entry. |
| FileWatch.FileWatcher.DeregisterCallback | filewatcher/filewatcher.go:81-91 | Removes only the named key; an unknown key changes nothing. |
| FileWatch.FileWatcher.StopWatching | filewatcher/filewatcher.go:113-116 | Closes the stop channel; it panics exactly when the channel was already closed. |
| FileWatch.FileWatcher.DispatchAll | filewatcher/filewatcher.go:134-136 | Every registered handler is called once with the same bytes. |
| FileWatch.FileWatcher.HandleEvent | filewatcher/filewatcher.go:122-149 | One iteration does what `Step` says and fans out each payload to every handler. |
| FileWatch.FileWatcher.Start | filewatcher/filewatcher.go:119-151 | The loop ends as `Loop` says, with the stop channel as `Loop` leaves it, and fans out each payload `Loop` produces to every handler, in order. |
| Monitor.NewConfigMonitor | monitor/monitor.go:46-58 | An empty key and an absent watcher are errors, checked in that order; otherwise a fresh monitor with the key and watcher, no manager, no config and no callbacks. |
| Monitor.ConfigMonitor.constructor | monitor/monitor.go:54-57 | A new monitor has only its key and watcher set. |
| Monitor.ConfigMonitor.Key | monitor/monitor.go:61 | Returns the monitor's routing key. |
| Monitor.ConfigMonitor.Config | monitor/monitor.go:64 | Returns the cached config. |
| Monitor.ConfigMonitor.Start | monitor/monitor.go:67-77 | Without a manager it fails and registers nothing; a taken key in the watcher is returned and nothing is parsed; otherwise its parse handler is registered under its key and the current file is parsed once, a read failure being returned. |
| Monitor.ConfigMonitor.Stop | monitor/monitor.go:80-87 | Afterwards the callback registry is empty and the monitor's key is gone from the watcher. |
| Monitor.ConfigMonitor.SetManager | monitor/monitor.go:90 | Stores the manager and changes nothing else. |
| Monitor.ConfigMonitor.RegisterCallback | monitor/monitor.go:93-101 | Stores the callback under the key, replacing any callback there. |
| Monitor.ConfigMonitor.DeregisterCallback | monitor/monitor.go:104-113 | Removes only the named key; an unknown key changes nothing. |
| Monitor.ConfigMonitor.ParseHandler | monitor/monitor.go:116-136 | A decode failure changes nothing and fires nothing; otherwise the cached config becomes the decoded entry for the key, nil on a miss, and only a hit fires every registered callback exactly once. |
| Monitor.StopThenParse | monitor/monitor.go:80-87 | After `Stop`, a parse invokes no callback. |
| ConfigWatch.NewConfigWatcher | client/watch.go:35-47 | A watcher that cannot be created is a failure with its cause; otherwise the key is `from/to`, the target service is `to`, and there is no config and no callback yet. |
| ConfigWatch.ConfigWatcher.constructor | client/watch.go:41-46 | The key is composed from the two service names. |
| ConfigWatch.ConfigWatcher.ToService | client/watch.go:49 | Returns the callee's service name. |
| ConfigWatch.ConfigWatcher.Key | client/watch.go:51 | Returns the key "from/to" composed from the two service names. |
| ConfigWatch.ConfigWatcher.Config | client/watch.go:53 | Returns the cached config. |
| ConfigWatch.ConfigWatcher.AddCallback | client/watch.go:67-69 | Appends the callback. |
| ConfigWatch.ConfigWatcher.ParseHandler | client/watch.go:72-98 | A read or decode failure changes nothing; the file is decoded into a fresh empty manager, so the cached config is the entry of the current bytes for the key, nil on a miss; a hit runs every callback once in registration order. |
| ConfigWatch.ConfigWatcher.Start | client/watch.go:55-59 | The current file is applied once before the parse handler is installed and watching starts; a failure to start watching is dropped. |
| ConfigWatch.ConfigWatcher.Stop | client/watch.go:61-65 | Closes the stop channel; a second close panics. |
| Retry.Reconciled | client/retry.go:41-67 | After a reload a well-formed policy is installed, a malformed one (both or neither sub-policy set) leaves the previous policy in force, a method gone from the file since the previous reload is deleted, and every other method is untouched. |
| Retry.ReconciledIdempotent | client/retry.go:41-67 | Reloading the same file again changes the container no further. |
| Retry.RetryAdapter.constructor | client/retry.go:37-39 | An empty container and an empty shadow set. |
| Retry.RetryAdapter.OnChange | client/retry.go:41-67 | The shadow set becomes every method of the file, malformed ones included; each well-formed method is notified once, then each method that left the file is deleted once; the container ends as `Reconciled` says. |
| Retry.RetryAdapter.NotifyAll | client/retry.go:46-62 | Every method enters the new shadow set and each well-formed policy is notified exactly once. |
| Retry.RetryAdapter.Visit | client/retry.go:49-61 | A policy with both or with neither sub-policy set is skipped without a call; any other is notified once. |
| Retry.ApplyNotifications | client/retry.go:46-62 | Notifying a list of methods, in any order, installs each one's policy and leaves every other entry as it was. |
| Retry.RetryAdapter.DeleteAll | client/retry.go:64-66 | Deletes each listed method, in order. |
| Retry.RetryAdapter.Notify | client/retry.go:61 | Records the notification and installs the policy. |
| Retry.RetryAdapter.Delete | client/retry.go:65 | Records the deletion and removes the policy. |
| CircuitBreaker.GenServiceCBKey | client/circuit_breaker.go:57-65 | The method can be read back from the key, so within one service distinct methods get distinct keys. |
| CircuitBreaker.MethodOfInverse | client/circuit_breaker.go:57-65 | A key that names a method of the service is that method's `service/method` key. |
| CircuitBreaker.GenServiceCBKeyWithRPCInfo | client/circuit_breaker.go:50-55 | No RPC information gives the empty key, and only then; otherwise the key of the callee's method. |
| CircuitBreaker.CBReconciled | client/circuit_breaker.go:29-44 | After a reload each method of the file has its config, each method gone from the file has the default config, and every other key is untouched. |
| CircuitBreaker.CBReconciledIdempotent | client/circuit_breaker.go:29-44 | Reloading the same file again changes the suite no further. |
| CircuitBreaker.ApplyUpdates | client/circuit_breaker.go:33-43 | Updating a list of methods, in any order, sets each one's key to its config and leaves every other key as it was. |
| CircuitBreaker.ReloadUpdates | client/circuit_breaker.go:29-44 | The updates of one reload, in any map order, leave the reconciled table. |
| CircuitBreaker.CBAdapter.constructor | client/circuit_breaker.go:26-27 | An empty suite, an empty shadow set, and the framework's default config to reset removed methods to. |
| CircuitBreaker.CBAdapter.OnChange | client/circuit_breaker.go:29-44 | One update per method of the file, then one reset to the default per method that left it; the shadow set becomes the file's methods and the suite ends as `CBReconciled` says. |
| CircuitBreaker.CBAdapter.UpdateAll | client/circuit_breaker.go:33-37 | Every method enters the new shadow set and gets its config exactly once, without validation. |
| CircuitBreaker.CBAdapter.ResetAll | client/circuit_breaker.go:39-43 | Resets each listed method to the default, in order. |
| CircuitBreaker.CBAdapter.Update | client/circuit_breaker.go:36 | Records one update of the suite. |
| Limit.LimitAdapter.constructor | server/limit.go:34-35 | The zero option and no updater. |
| Limit.LimitAdapter.UpdateControl | server/limit.go:37-41 | Pushes the current option through the new updater, then keeps the updater; the updater has then seen the current option. |
| Limit.LimitAdapter.OnChange | server/limit.go:43-57 | The option always takes both limits; without an updater nothing is pushed and a warning is logged; with one, exactly one push of the new option, and a refusal is only warned about, with no rollback; the updater keeps seeing the current option. |

## Left out

- The fsnotify watch, the listener goroutine, `select`, `recover`, mutexes and
  `atomic.Value`: every call runs to completion before the next, and the
  listener consumes a given sequence of events.
- Reading the file and checking that it exists (utils/utils.go) are inputs
  (`ReadResult`, `PathStat`, `watcherCreated`).
- YAML decoding (parser/parser.go) is the `Decoder` parameter; whether decoding
  into the monitor's reused manager merges or replaces entries is the YAML
  library's behaviour.
- The framework's retry container, breaker suite and limit updater are
  modelled by the calls made on them and a method/key -> policy table; their
  internal semantics (how a retryer is built, the percentage limit, the
  updater's own checks) are not modelled.
- Callbacks are not executed: a panicking callback, and the isolation of one
  callback's failure from the others, are not modelled.
- Log lines are not modelled, except the two limiter warnings.
- Monitor.ConfigMonitor.Start: `CallOnceSpecific` is not defined by the
  file watcher it is modelled with; it is taken to read the file and run this
  monitor's own parse handler once, a read failure being returned.
- The type assertions `watcher.Config().(*parser.ClientFileConfig)` and the
  `AddCallback` call in client/retry.go and server/limit.go target an
  interface revision that is not part of this model; the adapters take the
  parsed section as their argument.
- A nil manager in the monitor is a decode failure; a nil pointer stored as an
  entry of the decoded map, and a partially applied decode, are not modelled.
- Retry.RetryAdapter.Visit, CircuitBreaker.CBAdapter.UpdateAll: a method
  whose entry in the file is null decodes to a nil pointer, and the code
  dereferences it (client/retry.go:49, client/circuit_breaker.go:36), a panic
  that aborts the reload; the method -> policy maps of the model hold values,
  so a nil entry and that panic are not represented.
- The framework's default circuit-breaker config
  (`circuitbreak.GetDefaultCBConfig()`) is a parameter of `CBAdapter` and of
  `CBReconciled`; its value belongs to the framework.
- Limit.LimitAdapter.OnChange: the option is shared by pointer with the
  limiter in Go; the model records the value pushed at each call, and the
  option's other fields (`UpdateControl` itself) are not modelled.
- client/rpc_timeout.go forwards the timeout map to the framework with no
  logic of its own; client/suite.go, server/suite.go, client/client.go and
  server/server.go are option assembly and type-assertion glue;
  utils/filewatcher.go is reduced to what `ConfigWatcher` uses of it.
- ConfigWatch.ConfigWatcher.Start: the error of `StartWatching` is dropped,
  as in the code, and the watch it starts is not modelled further.
- The listener treats a `done` case as selectable only once the stop channel
  is closed; Go's random choice among ready cases is covered by the event
  sequence being arbitrary.
