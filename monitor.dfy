/** The config monitor of monitor/monitor.go: one routing-key slot of a
    shared watched file. It registers its parse handler with the file watcher
    under its key; each parse decodes the file into its manager, looks up its
    key, caches the entry and fans out to its own keyed callbacks.

    The monitor is generic in the configuration record `C` it caches, so no
    type assertion on the cached value is needed. Invoking a callback is
    recorded in `invoked`. */
module Monitor {
  import opened Common
  import opened Parser
  import opened FileWatch

  datatype MonitorError =
    | EmptyKey
    | NilWatcher
    | ManagerNotSet
    | Watcher(cause: WatchError)
    | InitialReadFailed          // the initial CallOnceSpecific could not read the file

  /** `NewConfigMonitor`: rejects an empty key and an absent watcher. */
  method NewConfigMonitor<C>(key: string, watcher: FileWatcher?) returns (r: Result<ConfigMonitor<C>, MonitorError>)
    ensures key == "" ==> r == Failure(EmptyKey)
    ensures key != "" && watcher == null ==> r == Failure(NilWatcher)
    ensures key != "" && watcher != null ==>
      && r.Success? && fresh(r.value)
      && r.value.Key() == key && r.value.fileWatcher == watcher
      && r.value.manager.None? && r.value.config.None?
      && r.value.callbacks == map[] && r.value.invoked == []
  {
    if key == "" {
      return Failure(EmptyKey);
    }
    if watcher == null {
      return Failure(NilWatcher);
    }
    var m := new ConfigMonitor(key, watcher);
    return Success(m);
  }

  class ConfigMonitor<C> {
    var manager: Option<Manager<C>>
    var config: Option<C>
    const fileWatcher: FileWatcher
    var callbacks: map<string, CallbackId>
    const key: string
    /** Keys of the callbacks invoked so far, in invocation order. */
    var invoked: seq<string>

    constructor (key: string, watcher: FileWatcher)
      ensures this.key == key && fileWatcher == watcher
      ensures manager.None? && config.None? && callbacks == map[] && invoked == []
    {
      this.key := key;
      fileWatcher := watcher;
      manager := None;
      config := None;
      callbacks := map[];
      invoked := [];
    }

    /** The routing key the monitor was created with. */
    function Key(): (k: string)
      ensures k == key
    {
      key
    }

    /** The entry the last decoded file held for the key: nil before any
      parse and after one that found no entry. */
    function Config(): (c: Option<C>)
      reads this
      ensures c == config
    {
      config
    }

    /** The state after a parse of `data`, from manager `m0`, cached config
      `c0` and invocation trace `inv0`. A decode failure (a nil manager
      cannot be decoded into) changes nothing; otherwise the manager holds
      the decoded file and the cached config is its entry for this key, nil
      when there is none; only a found entry fires the callbacks, each
      registered one exactly once. */
    ghost predicate ParsedFrom(decode: Decoder<C>, data: Bytes, m0: Option<Manager<C>>,
                               c0: Option<C>, inv0: seq<string>, outcome: ParseOutcome)
      reads this
    {
      if m0.None? || decode(data, m0.value).None? then
        outcome == DecodeFailed && manager == m0 && config == c0 && invoked == inv0
      else
        var m := decode(data, m0.value).value;
        && manager == Some(m)
        && config == m.GetConfig(key)
        && if config.Some? then
             && outcome == Applied
             && |invoked| >= |inv0| && invoked[..|inv0|] == inv0
             && EachOnce(invoked[|inv0|..], callbacks.Keys)
           else
             outcome == KeyMissing && invoked == inv0
    }

    /** `Start`: needs a manager; registers the parse handler with the
      watcher under this key (a taken key is the watcher's error, returned
      without parsing); then `CallOnceSpecific` reads the file and runs the
      parse handler once. */
    method Start(decode: Decoder<C>, read: ReadResult) returns (err: Option<MonitorError>, ghost outcome: ParseOutcome)
      modifies this, fileWatcher
      ensures old(manager).None? ==>
        err == Some(ManagerNotSet) && unchanged(this) && unchanged(fileWatcher)
      ensures old(manager).Some? && key in old(fileWatcher.callbacks) ==>
        err == Some(Watcher(KeyExists(key))) && unchanged(this)
        && fileWatcher.callbacks == old(fileWatcher.callbacks)
      ensures old(manager).Some? && key !in old(fileWatcher.callbacks) ==>
        && fileWatcher.callbacks == old(fileWatcher.callbacks)[key := this]
        && (read.ReadFailed? ==> err == Some(InitialReadFailed) && unchanged(this))
        && (read.ReadOk? ==>
              err == None && ParsedFrom(decode, read.data, old(manager), old(config), old(invoked), outcome))
      ensures callbacks == old(callbacks)
      ensures fileWatcher.done == old(fileWatcher.done) && fileWatcher.dispatches == old(fileWatcher.dispatches)
    {
      outcome := ReadError;
      if manager.None? {
        return Some(ManagerNotSet), outcome;
      }
      var e := fileWatcher.RegisterCallback(this, key);
      if e.Some? {
        return Some(Watcher(e.value)), outcome;
      }
      match read {
        case ReadFailed =>
          return Some(InitialReadFailed), outcome;
        case ReadOk(data) =>
          outcome := ParseHandler(decode, data);
          return None, outcome;
      }
    }

    /** `Stop`: deregisters every callback of this monitor, then this
      monitor's handler from the watcher. */
    method Stop()
      modifies this, fileWatcher
      ensures callbacks == map[]
      ensures fileWatcher.callbacks == old(fileWatcher.callbacks) - {key}
      ensures manager == old(manager) && config == old(config) && invoked == old(invoked)
      ensures fileWatcher.done == old(fileWatcher.done) && fileWatcher.dispatches == old(fileWatcher.dispatches)
    {
      while callbacks != map[]
        invariant manager == old(manager) && config == old(config) && invoked == old(invoked)
        invariant unchanged(fileWatcher)
        decreases callbacks.Keys
      {
        var k :| k in callbacks;
        DeregisterCallback(k);
      }
      fileWatcher.DeregisterCallback(key);
    }

    method SetManager(m: Manager<C>)
      modifies this
      ensures manager == Some(m)
      ensures config == old(config) && callbacks == old(callbacks) && invoked == old(invoked)
    {
      manager := Some(m);
    }

    /** Stores `callback` under `callbackKey`, replacing any callback there. */
    method RegisterCallback(callback: CallbackId, callbackKey: string)
      modifies this
      ensures callbacks == old(callbacks)[callbackKey := callback]
      ensures manager == old(manager) && config == old(config) && invoked == old(invoked)
    {
      callbacks := callbacks[callbackKey := callback];
    }

    /** Removes the callback under `callbackKey`; an unknown key only logs. */
    method DeregisterCallback(callbackKey: string)
      modifies this
      ensures callbacks == old(callbacks) - {callbackKey}
      ensures manager == old(manager) && config == old(config) && invoked == old(invoked)
    {
      if callbackKey !in callbacks {
        return;
      }
      callbacks := callbacks - {callbackKey};
    }

    /** `parseHandler`: decode, look up this key, fan out. */
    method ParseHandler(decode: Decoder<C>, data: Bytes) returns (outcome: ParseOutcome)
      modifies this
      ensures ParsedFrom(decode, data, old(manager), old(config), old(invoked), outcome)
      ensures callbacks == old(callbacks)
    {
      if manager.None? {
        return DecodeFailed;
      }
      var decoded := decode(data, manager.value);
      if decoded.None? {
        return DecodeFailed;
      }
      manager := decoded;
      config := decoded.value.GetConfig(key);
      if config.None? {
        return KeyMissing;
      }
      var rest := callbacks.Keys;
      ghost var order: seq<string> := [];
      while rest != {}
        invariant callbacks == old(callbacks)
        invariant rest <= callbacks.Keys
        invariant invoked == old(invoked) + order
        invariant NoDup(order)
        invariant forall i :: 0 <= i < |order| ==> order[i] in callbacks.Keys - rest
        invariant forall k :: k in callbacks.Keys - rest ==> k in order
        invariant manager == decoded && config == decoded.value.GetConfig(key)
        decreases rest
      {
        var k :| k in rest;
        invoked := invoked + [k];
        order := order + [k];
        rest := rest - {k};
      }
      assert invoked[|old(invoked)|..] == order;
      return Applied;
    }
  }

  /** After `Stop`, a parse that finds this key invokes nothing. */
  method StopThenParse<C>(m: ConfigMonitor<C>, decode: Decoder<C>, data: Bytes)
    modifies m, m.fileWatcher
    ensures m.callbacks == map[] && m.invoked == old(m.invoked)
    ensures m.fileWatcher.callbacks == old(m.fileWatcher.callbacks) - {m.key}
  {
    m.Stop();
    var outcome := m.ParseHandler(decode, data);
    if outcome == Applied {
      EachOnceSize(m.invoked[|old(m.invoked)|..], {});
      assert m.invoked == m.invoked[..|old(m.invoked)|] + m.invoked[|old(m.invoked)|..];
    }
  }
}
