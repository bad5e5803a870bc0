/** The single-key client config watcher of client/watch.go: it owns one
    file watcher, parses the file on start and on every change, keeps the
    client configuration stored under "from/to", and invokes its callbacks in
    registration order after each parse that finds that key.

    The file watcher it owns (utils/filewatcher.go) is reduced to the three
    facts this class relies on: whether the parse handler is installed,
    whether watching started, and whether its stop channel is closed.
    Invoking a callback is recorded in `invoked`. */
module ConfigWatch {
  import opened Common
  import opened Parser
  import Keys
  import opened FileWatch

  /** `NewConfigWatcher`. The source panics when the file watcher cannot be
    created (the watch backend fails, the path cannot be inspected, or the
    file does not exist); here that is a `Failure` carrying the cause. */
  method NewConfigWatcher(filePath: string, from: string, to: string, watcherCreated: bool, stat: PathStat)
    returns (r: Result<ConfigWatcher, WatchError>)
    ensures !watcherCreated ==> r == Failure(WatcherInitFailed)
    ensures watcherCreated && stat == StatFailed ==> r == Failure(StatError)
    ensures watcherCreated && stat == PathMissing ==> r == Failure(FileNotExist(filePath))
    ensures watcherCreated && stat == PathExists ==>
      && r.Success? && fresh(r.value)
      && r.value.Key() == Keys.GetKey(from, to) && r.value.ToService() == to
      && r.value.from == from && r.value.filePath == filePath
      && r.value.config.None? && r.value.callbacks == [] && r.value.invoked == []
      && !r.value.handlerInstalled && !r.value.watching && !r.value.stopped
  {
    if !watcherCreated {
      return Failure(WatcherInitFailed);
    }
    match stat {
      case StatFailed => return Failure(StatError);
      case PathMissing => return Failure(FileNotExist(filePath));
      case PathExists =>
        var c := new ConfigWatcher(filePath, from, to);
        return Success(c);
    }
  }

  class ConfigWatcher {
    var config: Option<ClientFileConfig>
    var callbacks: seq<CallbackId>
    const from: string
    const to: string
    const key: string := Keys.GetKey(from, to)
    const filePath: string
    /** The file watcher's callback is this watcher's parse handler. */
    var handlerInstalled: bool
    /** The file watcher's `StartWatching` added the path. */
    var watching: bool
    /** The file watcher's `done` channel is closed. */
    var stopped: bool
    /** Callbacks invoked so far, in invocation order. */
    var invoked: seq<CallbackId>

    constructor (filePath: string, from: string, to: string)
      ensures this.filePath == filePath && this.from == from && this.to == to
      ensures key == Keys.GetKey(from, to)
      ensures config.None? && callbacks == [] && invoked == []
      ensures !handlerInstalled && !watching && !stopped
    {
      this.filePath := filePath;
      this.from := from;
      this.to := to;
      config := None;
      callbacks := [];
      invoked := [];
      handlerInstalled := false;
      watching := false;
      stopped := false;
    }

    /** The callee's service name. */
    function ToService(): (svc: string)
      ensures svc == to
    {
      to
    }

    /** The routing key this watcher reads: "from/to". */
    function Key(): (k: string)
      ensures k == Keys.GetKey(from, to)
    {
      key
    }

    /** The entry the last decoded file held for the key: nil before any
      parse and after one that found no entry. */
    function Config(): (c: Option<ClientFileConfig>)
      reads this
      ensures c == config
    {
      config
    }

    /** Appends `callback`; registering the same one twice runs it twice. */
    method AddCallback(callback: CallbackId)
      modifies this
      ensures callbacks == old(callbacks) + [callback]
      ensures config == old(config) && invoked == old(invoked)
      ensures handlerInstalled == old(handlerInstalled) && watching == old(watching) && stopped == old(stopped)
    {
      callbacks := callbacks + [callback];
    }

    /** The state after a parse of `read` from cached config `c0` and
      invocation trace `inv0`. The file is decoded into a fresh empty
      manager and "from/to" looked up. A read or decode failure changes
      nothing; otherwise the cached config becomes the decoded entry for the
      key (nil when absent, dropping the previous one), and only a found
      entry runs every callback once, in registration order. */
    ghost predicate ParsedFrom(decode: Decoder<ClientFileConfig>, read: ReadResult,
                               c0: Option<ClientFileConfig>, inv0: seq<CallbackId>, outcome: ParseOutcome)
      reads this
    {
      if read.ReadFailed? then
        outcome == ReadError && config == c0 && invoked == inv0
      else if decode(read.data, Manager(map[])).None? then
        outcome == DecodeFailed && config == c0 && invoked == inv0
      else
        var m := decode(read.data, Manager(map[])).value;
        && config == m.GetConfig(key)
        && (key in m.entries ==> outcome == Applied && invoked == inv0 + callbacks)
        && (key !in m.entries ==> outcome == KeyMissing && invoked == inv0)
    }

    /** `parseHandler`. */
    method ParseHandler(decode: Decoder<ClientFileConfig>, read: ReadResult) returns (outcome: ParseOutcome)
      modifies this
      ensures ParsedFrom(decode, read, old(config), old(invoked), outcome)
      ensures callbacks == old(callbacks)
      ensures handlerInstalled == old(handlerInstalled) && watching == old(watching) && stopped == old(stopped)
    {
      if read.ReadFailed? {
        return ReadError;
      }
      var resp := decode(read.data, Manager(map[]));
      if resp.None? {
        return DecodeFailed;
      }
      config := resp.value.GetConfig(key);
      if config.None? {
        return KeyMissing;
      }
      for i := 0 to |callbacks|
        invariant callbacks == old(callbacks) && config == resp.value.GetConfig(key)
        invariant handlerInstalled == old(handlerInstalled) && watching == old(watching) && stopped == old(stopped)
        invariant invoked == old(invoked) + callbacks[..i]
      {
        invoked := invoked + [callbacks[i]];
      }
      assert callbacks[..|callbacks|] == callbacks;
      return Applied;
    }

    /** `Start`: parse once, install the parse handler, start watching. An
      error from `StartWatching` (the path could not be added) is dropped,
      leaving the watcher not watching. */
    method Start(decode: Decoder<ClientFileConfig>, read: ReadResult, pathAdded: bool) returns (ghost outcome: ParseOutcome)
      modifies this
      ensures handlerInstalled && watching == (old(watching) || pathAdded)
      ensures ParsedFrom(decode, read, old(config), old(invoked), outcome)
      ensures callbacks == old(callbacks) && stopped == old(stopped)
    {
      outcome := ParseHandler(decode, read);
      handlerInstalled := true;
      if pathAdded {
        watching := true;
      }
    }

    /** `Stop`: closes the file watcher's stop channel. Closing it a second
      time (a second `Stop`, or a `Stop` after the file watcher closed it on
      a remove event) is a Go runtime panic, reported here as `panicked`. */
    method Stop() returns (panicked: bool)
      modifies this
      ensures panicked == old(stopped) && stopped
      ensures config == old(config) && callbacks == old(callbacks) && invoked == old(invoked)
      ensures handlerInstalled == old(handlerInstalled) && watching == old(watching)
    {
      panicked := stopped;
      stopped := true;
    }
  }
}
