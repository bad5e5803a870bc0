/** The keyed file watcher of filewatcher/filewatcher.go: a registry of
    handlers keyed by string, and a listener loop that, on each write to the
    watched file, reads it and hands the bytes to every registered handler.

    The fsnotify watch, the goroutine and the `select` are not modelled: the
    loop consumes a sequence of events, one per `select` that fired, and
    invoking a handler is recorded in `dispatches` instead of run. */
module FileWatch {
  import opened Common

  /** What `utils.PathExists` reports for the path. */
  datatype PathStat = PathExists | PathMissing | StatFailed

  datatype WatchError =
    | WatcherInitFailed         // fsnotify.NewWatcher failed
    | StatError                 // os.Stat failed for another reason than absence
    | FileNotExist(path: string)
    | KeyExists(key: string)

  /** What one iteration of the listener's `select` received. */
  datatype Event =
    | FsEvent(write: bool, remove: bool, read: ReadResult)
      // an fsnotify event; when it carries Write, `read` is what os.ReadFile returned
    | WatchErrorEvent           // a value on the Errors channel
    | EventsClosed              // the Events channel was closed
    | ErrorsClosed              // the Errors channel was closed
    | DoneSelected              // the `done` case was chosen (possible only once done is closed)

  /** Why the listener returned, or `Waiting` if it consumed every event. */
  datatype Exit = Waiting | ChannelClosed | ReadFailure | DoneClosed | Panicked

  /** One fan-out: the bytes read and the handler keys invoked, in order. */
  datatype Dispatch = Dispatch(data: Bytes, order: seq<string>)

  /** The effect of one loop iteration: whether the loop returns (and why),
      whether `done` is closed afterwards, and the bytes dispatched. */
  datatype StepResult = StepResult(exit: Option<Exit>, done: bool, payload: seq<Bytes>)

  /** An event that makes the listener return, when `done` is closed exactly
      if `d`: a Write whose read failed, a closed Events or Errors channel,
      the `done` case, and a Remove once `done` is already closed. A value on
      the Errors channel never does. */
  predicate Ends(d: bool, e: Event) {
    || (e.FsEvent? && e.write && e.read.ReadFailed?)
    || e == EventsClosed || e == ErrorsClosed
    || (e == DoneSelected && d)
    || (Removes(e) && d)
  }

  /** One iteration of the listener loop. A failed read returns before any
      handler runs; a Remove closes `done`, which panics when it is already
      closed (the goroutine's `recover` then ends the loop); errors on the
      Errors channel are only logged. */
  function Step(done: bool, e: Event): StepResult {
    match e
    case EventsClosed => StepResult(Some(ChannelClosed), done, [])
    case ErrorsClosed => StepResult(Some(ChannelClosed), done, [])
    case WatchErrorEvent => StepResult(None, done, [])
    case DoneSelected =>
      if done then StepResult(Some(DoneClosed), done, []) else StepResult(None, done, [])
    case FsEvent(write, remove, read) =>
      if write && read.ReadFailed? then StepResult(Some(ReadFailure), done, [])
      else
        var payload := if write then [read.data] else [];
        if !remove then StepResult(None, done, payload)
        else if done then StepResult(Some(Panicked), done, payload)
        else StepResult(None, true, payload)
  }

  /** The whole run of the listener over `events`. */
  datatype Run = Run(exit: Exit, consumed: nat, done: bool, payloads: seq<Bytes>)

  /** Iterates `Step` until an iteration returns or the events run out. */
  function Loop(done: bool, events: seq<Event>): (r: Run)
    ensures r.consumed <= |events|
    ensures r.exit == Waiting ==> r.consumed == |events|
    ensures r.exit != Waiting ==> 1 <= r.consumed
    ensures done ==> r.done
    decreases |events|
  {
    if events == [] then Run(Waiting, 0, done, [])
    else
      var s := Step(done, events[0]);
      if s.exit.Some? then Run(s.exit.value, 1, s.done, s.payload)
      else
        var rest := Loop(s.done, events[1..]);
        Run(rest.exit, rest.consumed + 1, rest.done, s.payload + rest.payloads)
  }

  /** A run after `n` events already handled, `acc` already dispatched. */
  function Prepend(n: nat, acc: seq<Bytes>, r: Run): Run {
    Run(r.exit, r.consumed + n, r.done, acc + r.payloads)
  }

  /** The bytes of every write event whose read succeeded, in order. */
  function WriteData(events: seq<Event>): seq<Bytes> {
    if events == [] then []
    else
      var e := events[0];
      (if e.FsEvent? && e.write && e.read.ReadOk? then [e.read.data] else []) + WriteData(events[1..])
  }

  /** An event whose Remove flag is acted on (its read, if any, succeeded). */
  predicate Removes(e: Event) {
    e.FsEvent? && e.remove && !(e.write && e.read.ReadFailed?)
  }

  /** The handlers receive exactly the bytes of the handled write events
      whose read succeeded, in event order, each write once; a failed read
      dispatches nothing. */
  lemma {:induction false} LoopDispatchesWrites(done: bool, events: seq<Event>)
    ensures var r := Loop(done, events); r.payloads == WriteData(events[..r.consumed])
    decreases |events|
  {
    if events != [] {
      var s := Step(done, events[0]);
      var r := Loop(done, events);
      if s.exit.None? {
        LoopDispatchesWrites(s.done, events[1..]);
        var rest := Loop(s.done, events[1..]);
        assert events[..r.consumed][1..] == events[1..][..rest.consumed];
      } else {
        assert events[..r.consumed] == [events[0]];
        assert WriteData([events[0]]) == s.payload + WriteData([]);
      }
    }
  }

  /** After the loop, `done` is closed exactly when it was closed before or
      a handled event carried Remove. */
  lemma {:induction false} LoopClosesDoneOnRemove(done: bool, events: seq<Event>)
    ensures var r := Loop(done, events);
      r.done <==> done || exists i :: 0 <= i < r.consumed && Removes(events[i])
    decreases |events|
  {
    var r := Loop(done, events);
    if events != [] {
      var s := Step(done, events[0]);
      if s.exit.None? {
        LoopClosesDoneOnRemove(s.done, events[1..]);
        var rest := Loop(s.done, events[1..]);
        if exists i :: 0 <= i < rest.consumed && Removes(events[1..][i]) {
          var i :| 0 <= i < rest.consumed && Removes(events[1..][i]);
          assert Removes(events[i + 1]);
        }
        if exists i :: 0 <= i < r.consumed && Removes(events[i]) {
          var i :| 0 <= i < r.consumed && Removes(events[i]);
          if i > 0 {
            assert Removes(events[1..][i - 1]);
          }
        }
      } else {
        assert r.consumed == 1;
      }
    }
  }

  /** What one iteration does, in terms of `Ends`. */
  lemma StepEnds(done: bool, e: Event)
    ensures var r := Step(done, e);
      // the iteration returns exactly on an event that `Ends` the loop, and
      // then with the exit `ExitBy` names;
      && (r.exit.Some? <==> Ends(done, e))
      && (r.exit.Some? ==> ExitBy(r.exit.value, done, e))
      // otherwise a handled Remove is what closes `done`;
      && (r.exit.None? ==> (r.done <==> done || Removes(e)))
      // only a Write whose read succeeded has something to dispatch.
      && r.payload == if e.FsEvent? && e.write && e.read.ReadOk? then [e.read.data] else []
  {
  }

  /** Whether `done` is closed before event `k` is handled, when the loop
      started with `done` and handled `events[..k]` without returning. */
  predicate DoneBefore(done: bool, events: seq<Event>, k: nat)
    requires k <= |events|
  {
    done || exists i :: 0 <= i < k && Removes(events[i])
  }

  lemma DoneBeforeShift(done: bool, events: seq<Event>, k: nat)
    requires 0 < |events| && k < |events| && !Ends(done, events[0])
    ensures DoneBefore(Step(done, events[0]).done, events[1..], k) == DoneBefore(done, events, k + 1)
  {
    StepEnds(done, events[0]);
    if exists i :: 0 <= i < k && Removes(events[1..][i]) {
      var i :| 0 <= i < k && Removes(events[1..][i]);
      assert Removes(events[i + 1]);
    }
    if exists i :: 0 <= i < k + 1 && Removes(events[i]) {
      var i :| 0 <= i < k + 1 && Removes(events[i]);
      if i > 0 {
        assert Removes(events[1..][i - 1]);
      }
    }
  }

  /** Event `e`, handled with `done` closed exactly if `d`, ends the loop
      with `x`: a failed read, a closed channel, the `done` case, or a
      Remove that closes `done` a second time; never a value on the Errors
      channel. */
  predicate ExitBy(x: Exit, d: bool, e: Event) {
    && Ends(d, e)
    && e != WatchErrorEvent
    && (x == ReadFailure <==> e.FsEvent? && e.write && e.read.ReadFailed?)
    && (x == ChannelClosed <==> e == EventsClosed || e == ErrorsClosed)
    && (x == DoneClosed <==> e == DoneSelected)
    && (x == Panicked <==> Removes(e))
  }

  /** Why the listener returns: it waits only when no event ends it; else
      the last event it consumed is the first one that `Ends` it, and that
      event decides the exit: a failed read, a closed channel, the `done`
      case, or a Remove that closes `done` a second time. */
  lemma {:induction false} LoopExit(done: bool, events: seq<Event>)
    ensures var r := Loop(done, events);
      && (r.exit == Waiting ==> forall i :: 0 <= i < |events| ==> !Ends(DoneBefore(done, events, i), events[i]))
      && (r.exit != Waiting ==>
            && (forall i :: 0 <= i < r.consumed - 1 ==> !Ends(DoneBefore(done, events, i), events[i]))
            && ExitBy(r.exit, DoneBefore(done, events, r.consumed - 1), events[r.consumed - 1]))
    decreases |events|
  {
    if events != [] {
      var s := Step(done, events[0]);
      var r := Loop(done, events);
      StepEnds(done, events[0]);
      assert DoneBefore(done, events, 0) == done;
      if s.exit.None? {
        var rest := Loop(s.done, events[1..]);
        LoopExit(s.done, events[1..]);
        forall i | 0 <= i < |events[1..]| ensures DoneBefore(s.done, events[1..], i) == DoneBefore(done, events, i + 1) {
          DoneBeforeShift(done, events, i);
        }
        forall i | 0 <= i < |events| && (r.exit == Waiting || i < r.consumed - 1)
          ensures !Ends(DoneBefore(done, events, i), events[i])
        {
          if i > 0 {
            assert events[i] == events[1..][i - 1];
          }
        }
        if r.exit != Waiting {
          assert events[r.consumed - 1] == events[1..][rest.consumed - 1];
        }
      }
    }
  }

  /** A Write whose read fails ends the listener at once, dispatching
      nothing, whatever follows. */
  lemma FailedReadEndsLoop(done: bool, remove: bool, events: seq<Event>)
    ensures Loop(done, [FsEvent(true, remove, ReadFailed)] + events) == Run(ReadFailure, 1, done, [])
  {
  }

  /** Once `done` is closed, a Remove event panics (closing a closed
      channel) and ends the loop, after the write it carries was dispatched. */
  lemma RemoveAfterStopPanics(write: bool, data: Bytes, events: seq<Event>)
    ensures Loop(true, [FsEvent(write, true, ReadOk(data))] + events)
         == Run(Panicked, 1, true, if write then [data] else [])
  {
  }

  /** Dispatch trace `after` extends `before` with one fan-out per payload,
      each to every key in `keys` exactly once. */
  ghost predicate Dispatched(before: seq<Dispatch>, after: seq<Dispatch>, payloads: seq<Bytes>, keys: set<string>) {
    && |after| == |before| + |payloads|
    && after[..|before|] == before
    && forall j :: 0 <= j < |payloads| ==>
         after[|before| + j].data == payloads[j] && EachOnce(after[|before| + j].order, keys)
  }

  /** `filewatcher.NewFileWatcher`: fails when the fsnotify watcher cannot be
      created, when the path cannot be checked, or when it does not exist. */
  method NewFileWatcher(filePath: string, watcherCreated: bool, stat: PathStat)
    returns (r: Result<FileWatcher, WatchError>)
    ensures !watcherCreated ==> r == Failure(WatcherInitFailed)
    ensures watcherCreated && stat == StatFailed ==> r == Failure(StatError)
    ensures watcherCreated && stat == PathMissing ==> r == Failure(FileNotExist(filePath))
    ensures watcherCreated && stat == PathExists ==>
      && r.Success? && fresh(r.value)
      && r.value.filePath == filePath && r.value.callbacks == map[]
      && !r.value.done && r.value.dispatches == []
  {
    if !watcherCreated {
      return Failure(WatcherInitFailed);
    }
    match stat
    case StatFailed => return Failure(StatError);
    case PathMissing => return Failure(FileNotExist(filePath));
    case PathExists =>
      var fw := new FileWatcher(filePath);
      return Success(fw);
  }

  class FileWatcher {
    const filePath: string
    /** Registered handlers: key to the object whose parse handler it is. */
    var callbacks: map<string, object>
    /** Whether the `done` channel has been closed. */
    var done: bool
    /** Every handler invocation so far, one entry per fan-out. */
    var dispatches: seq<Dispatch>

    constructor (filePath: string)
      ensures this.filePath == filePath && callbacks == map[] && !done && dispatches == []
    {
      this.filePath := filePath;
      callbacks := map[];
      done := false;
      dispatches := [];
    }

    /** Adds a handler under a new key; a key already present is an error
      and keeps the handler already registered. */
    method RegisterCallback(callback: object, key: string) returns (err: Option<WatchError>)
      modifies this
      ensures err == if key in old(callbacks) then Some(KeyExists(key)) else None
      ensures callbacks == if key in old(callbacks) then old(callbacks) else old(callbacks)[key := callback]
      ensures done == old(done) && dispatches == old(dispatches)
    {
      if key in callbacks {
        return Some(KeyExists(key));
      }
      callbacks := callbacks[key := callback];
      return None;
    }

    /** Removes the handler under `key`; an unknown key only logs a warning. */
    method DeregisterCallback(key: string)
      modifies this
      ensures callbacks == old(callbacks) - {key}
      ensures done == old(done) && dispatches == old(dispatches)
    {
      if key !in callbacks {
        return;
      }
      callbacks := callbacks - {key};
    }

    /** Closes `done`. Closing it a second time is a Go panic, reported here
      as `panicked`. */
    method StopWatching() returns (panicked: bool)
      modifies this
      ensures panicked == old(done) && done
      ensures callbacks == old(callbacks) && dispatches == old(dispatches)
    {
      panicked := done;
      done := true;
    }

    /** Invokes every registered handler once with `data`, in the map's
      unspecified order. */
    method DispatchAll(data: Bytes) returns (order: seq<string>)
      modifies this
      ensures EachOnce(order, callbacks.Keys)
      ensures dispatches == old(dispatches) + [Dispatch(data, order)]
      ensures callbacks == old(callbacks) && done == old(done)
    {
      order := [];
      var rest := callbacks.Keys;
      while rest != {}
        invariant rest <= callbacks.Keys
        invariant NoDup(order)
        invariant forall i :: 0 <= i < |order| ==> order[i] in callbacks.Keys - rest
        invariant forall k :: k in callbacks.Keys - rest ==> k in order
        decreases rest
      {
        var key :| key in rest;
        order := order + [key];
        rest := rest - {key};
      }
      dispatches := dispatches + [Dispatch(data, order)];
    }

    /** One iteration of the loop body of `start`: what `Step` describes,
      with each dispatched payload handed to every handler once. */
    method HandleEvent(e: Event) returns (exit: Option<Exit>)
      modifies this
      ensures var s := Step(old(done), e);
        && exit == s.exit && done == s.done
        && Dispatched(old(dispatches), dispatches, s.payload, callbacks.Keys)
      ensures callbacks == old(callbacks)
    {
      match e {
        case EventsClosed =>
          return Some(ChannelClosed);
        case ErrorsClosed =>
          return Some(ChannelClosed);
        case WatchErrorEvent =>
          return None;
        case DoneSelected =>
          return if done then Some(DoneClosed) else None;
        case FsEvent(write, remove, read) =>
          if write {
            if read.ReadFailed? {
              return Some(ReadFailure);
            }
            var order := DispatchAll(read.data);
          }
          if remove {
            var panicked := StopWatching();
            if panicked {
              return Some(Panicked);
            }
          }
          return None;
      }
    }

    /** The listener loop `start`, driven by `events`: the run agrees with
      `Loop`, and each dispatched payload reached every handler once. */
    method Start(events: seq<Event>) returns (exit: Exit, consumed: nat)
      modifies this
      ensures var r := Loop(old(done), events);
        && exit == r.exit && consumed == r.consumed && done == r.done
        && Dispatched(old(dispatches), dispatches, r.payloads, callbacks.Keys)
      ensures callbacks == old(callbacks)
    {
      var i := 0;
      ghost var acc: seq<Bytes> := [];
      while i < |events|
        invariant 0 <= i <= |events|
        invariant callbacks == old(callbacks)
        invariant Loop(old(done), events) == Prepend(i, acc, Loop(done, events[i..]))
        invariant Dispatched(old(dispatches), dispatches, acc, callbacks.Keys)
        decreases |events| - i
      {
        ghost var d0 := done;
        ghost var trace0 := dispatches;
        LoopPrepend(d0, events, i, acc);
        var stop := HandleEvent(events[i]);
        ghost var s := Step(d0, events[i]);
        DispatchedTrans(old(dispatches), trace0, dispatches, acc, s.payload, callbacks.Keys);
        acc := acc + s.payload;
        if stop.Some? {
          return stop.value, i + 1;
        }
        i := i + 1;
      }
      assert events[i..] == [] && acc + [] == acc;
      return Waiting, i;
    }
  }

  /** One more event handled: `Loop` seen from position `i`. */
  lemma LoopPrepend(d: bool, events: seq<Event>, i: nat, acc: seq<Bytes>)
    requires i < |events|
    ensures var s := Step(d, events[i]);
      Prepend(i, acc, Loop(d, events[i..])) ==
        if s.exit.Some? then Run(s.exit.value, i + 1, s.done, acc + s.payload)
        else Prepend(i + 1, acc + s.payload, Loop(s.done, events[i + 1..]))
  {
    assert events[i..][0] == events[i] && events[i..][1..] == events[i + 1..];
  }

  lemma DispatchedTrans(a: seq<Dispatch>, b: seq<Dispatch>, c: seq<Dispatch>,
                        p: seq<Bytes>, q: seq<Bytes>, keys: set<string>)
    requires Dispatched(a, b, p, keys) && Dispatched(b, c, q, keys)
    ensures Dispatched(a, c, p + q, keys)
  {
    assert c[..|a|] == b[..|a|];
    forall j | 0 <= j < |p + q|
      ensures c[|a| + j].data == (p + q)[j] && EachOnce(c[|a| + j].order, keys)
    {
      if j < |p| {
        assert c[|a| + j] == b[|a| + j];
      } else {
        assert c[|a| + j] == c[|b| + (j - |p|)];
      }
    }
  }
}
