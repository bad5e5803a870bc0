/** The limiter adapter of server/limit.go: it owns the limit option it
    hands to the server, remembers the limiter's updater once the server
    installs one, and on every reload copies the two limits into the option
    and pushes it through that updater.

    The updater belongs to the RPC framework; it is identified by a number,
    and the pushes made through it are recorded in `calls`. Log lines that
    matter to the outcome (the warnings) are recorded in `warnings`. */
module Limit {
  import opened Common
  import opened Parser

  /** `limit.Option` of the framework, reduced to the two limits the
      adapter sets (Go `int`, 64 bits wide on the supported platforms). */
  datatype LimitOption = LimitOption(maxConnections: int, maxQPS: int)

  type UpdaterId = nat

  datatype UpdateLimitCall = UpdateLimit(updater: UpdaterId, option: LimitOption)

  datatype LimitWarning =
    | UpdaterEmpty             // a reload came before the server installed an updater
    | UpdateMayNotTakeEffect   // the updater refused the new option

  /** The state `initLimitOptions` builds. */
  class LimitAdapter {
    var opt: LimitOption
    /** The `atomic.Value` holding the updater, empty until `UpdateControl`. */
    var updater: Option<UpdaterId>
    /** Pushes made through an updater, in order. */
    var calls: seq<UpdateLimitCall>
    var warnings: seq<LimitWarning>

    /** Once an updater is installed, the last push went through it and
      carried the current option: the limiter never runs on stale limits
      (as long as it accepted the push). */
    ghost predicate Valid()
      reads this
    {
      updater.Some? ==> |calls| > 0 && calls[|calls| - 1] == UpdateLimit(updater.value, opt)
    }

    /** The zero option, no updater. */
    constructor ()
      ensures opt == LimitOption(0, 0) && updater.None? && calls == [] && warnings == []
      ensures Valid()
    {
      opt := LimitOption(0, 0);
      updater := None;
      calls := [];
      warnings := [];
    }

    /** `opt.UpdateControl`, called by the server with its updater: push the
      current option through it, then keep it. */
    method UpdateControl(u: UpdaterId)
      modifies this
      ensures calls == old(calls) + [UpdateLimit(u, old(opt))]
      ensures updater == Some(u) && opt == old(opt) && warnings == old(warnings)
      ensures Valid()
    {
      calls := calls + [UpdateLimit(u, opt)];
      updater := Some(u);
    }

    /** The reload callback, with `lc` the limit section of the server
      config just parsed and `accepted` what the updater's `UpdateLimit`
      answers. The option always takes the new limits; without an updater
      nothing is pushed and a warning is logged; a refused push is only
      logged, the option is not rolled back. */
    method OnChange(lc: LimiterConfig, accepted: bool)
      modifies this
      ensures opt == LimitOption(lc.connectionLimit as int, lc.qpsLimit as int)
      ensures updater == old(updater)
      ensures old(updater).None? ==> calls == old(calls) && warnings == old(warnings) + [UpdaterEmpty]
      ensures old(updater).Some? ==>
        && calls == old(calls) + [UpdateLimit(old(updater).value, opt)]
        && warnings == old(warnings) + (if accepted then [] else [UpdateMayNotTakeEffect])
      ensures Valid()
    {
      opt := LimitOption(lc.connectionLimit as int, lc.qpsLimit as int);
      if updater.None? {
        warnings := warnings + [UpdaterEmpty];
        return;
      }
      calls := calls + [UpdateLimit(updater.value, opt)];
      if !accepted {
        warnings := warnings + [UpdateMayNotTakeEffect];
      }
    }
  }
}
