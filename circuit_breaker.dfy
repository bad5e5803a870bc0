/** The circuit-breaker adapter of client/circuit_breaker.go: on every
    reload it sets the service-level breaker configuration of each method in
    the file, and resets the methods that vanished from the file since the
    last reload to the framework's default configuration.

    The breaker suite belongs to the RPC framework; it is modelled by the
    updates the adapter makes on it (`updates`) and by the key -> config
    table those updates leave behind (`Apply`). */
module CircuitBreaker {
  import opened Common
  import opened Parser
  import opened Sets

  /** The method named in a breaker key of service `toService`, if `k` is
      one: the text after the service name and "/". */
  function MethodOf(toService: string, k: string): Option<string> {
    if |k| > |toService| && k[..|toService|] == toService && k[|toService|] == '/'
    then Some(k[|toService| + 1..])
    else None
  }

  /** `genServiceCBKey`: the service name, "/", the method name. Within one
      service, distinct methods get distinct keys: the method can be read
      back from the key. */
  function GenServiceCBKey(toService: string, m: string): (k: string)
    ensures MethodOf(toService, k) == Some(m)
    ensures |k| == |toService| + |m| + 1
  {
    var k := toService + "/" + m;
    assert k[..|toService|] == toService;
    assert k[|toService| + 1..] == m;
    k
  }

  /** Every key naming a method of `toService` is that method's key. */
  lemma MethodOfInverse(toService: string, k: string, m: string)
    requires MethodOf(toService, k) == Some(m)
    ensures GenServiceCBKey(toService, m) == k
  {
    assert k == k[..|toService|] + [k[|toService|]] + k[|toService| + 1..];
  }

  datatype Endpoint = Endpoint(serviceName: string, methodName: string)

  /** The part of the RPC information the key is made from: the callee. */
  datatype RPCInfo = RPCInfo(to: Endpoint)

  /** `genServiceCBKeyWithRPCInfo`: no RPC information gives the empty key,
      which no real key equals; otherwise the key of the callee's method. */
  function GenServiceCBKeyWithRPCInfo(ri: Option<RPCInfo>): (k: string)
    ensures ri.None? <==> k == ""
    ensures ri.Some? ==> MethodOf(ri.value.to.serviceName, k) == Some(ri.value.to.methodName)
  {
    match ri
    case None => ""
    case Some(info) => GenServiceCBKey(info.to.serviceName, info.to.methodName)
  }

  datatype CBUpdate = UpdateServiceCBConfig(key: string, config: CBConfig)

  /** The suite's key -> config table after `updates`, in order, from `t`. */
  function Apply(t: map<string, CBConfig>, updates: seq<CBUpdate>): map<string, CBConfig>
    decreases |updates|
  {
    if updates == [] then t
    else
      var u := updates[|updates| - 1];
      Apply(t, updates[..|updates| - 1])[u.key := u.config]
  }

  lemma ApplySnoc(t: map<string, CBConfig>, updates: seq<CBUpdate>, u: CBUpdate)
    ensures Apply(t, updates + [u]) == Apply(t, updates)[u.key := u.config]
  {
    assert (updates + [u])[..|updates|] == updates;
  }

  lemma {:induction false} ApplyAppend(t: map<string, CBConfig>, a: seq<CBUpdate>, b: seq<CBUpdate>)
    ensures Apply(t, a + b) == Apply(Apply(t, a), b)
    decreases |b|
  {
    if b != [] {
      var b' := b[..|b| - 1];
      assert a + b == (a + b') + [b[|b| - 1]];
      assert b == b' + [b[|b| - 1]];
      ApplySnoc(t, a + b', b[|b| - 1]);
      ApplySnoc(Apply(t, a), b', b[|b| - 1]);
      ApplyAppend(t, a, b');
    } else {
      assert a + b == a;
    }
  }

  /** The breaker key of each method of `toService`. */
  function KeyFor(toService: string): string -> string {
    m => GenServiceCBKey(toService, m)
  }

  ghost predicate Injective(kf: string -> string) {
    forall a, b :: kf(a) == kf(b) ==> a == b
  }

  lemma KeyForInjective(toService: string)
    ensures Injective(KeyFor(toService))
  {
    forall a, b | KeyFor(toService)(a) == KeyFor(toService)(b) ensures a == b {
      assert MethodOf(toService, GenServiceCBKey(toService, a)) == Some(a);
      assert MethodOf(toService, GenServiceCBKey(toService, b)) == Some(b);
    }
  }

  /** The key of each method of `vals`, mapped to its config. */
  function Keyed(kf: string -> string, vals: map<string, CBConfig>): map<string, CBConfig>
    requires Injective(kf)
  {
    map m | m in vals :: kf(m) := vals[m]
  }

  /** `t` with the key of each method of `vals` set to its config. */
  function Put(t: map<string, CBConfig>, kf: string -> string, vals: map<string, CBConfig>): map<string, CBConfig>
    requires Injective(kf)
  {
    t + Keyed(kf, vals)
  }

  lemma KeyedAdd(kf: string -> string, vals: map<string, CBConfig>, m: string, c: CBConfig)
    requires Injective(kf)
    ensures Keyed(kf, vals)[kf(m) := c] == Keyed(kf, vals[m := c])
  {
    var lhs := Keyed(kf, vals)[kf(m) := c];
    var rhs := Keyed(kf, vals[m := c]);
    forall k | k in lhs ensures k in rhs && rhs[k] == lhs[k] {
      if k != kf(m) {
        var m2 :| m2 in vals && kf(m2) == k;
        assert m2 in vals[m := c];
      }
    }
    forall k | k in rhs ensures k in lhs {
      var m2 :| m2 in vals[m := c] && kf(m2) == k;
      if m2 != m {
        assert m2 in vals;
      }
    }
  }

  lemma PutAdd(t: map<string, CBConfig>, kf: string -> string, vals: map<string, CBConfig>, m: string, c: CBConfig)
    requires Injective(kf)
    ensures Put(t, kf, vals)[kf(m) := c] == Put(t, kf, vals[m := c])
  {
    KeyedAdd(kf, vals, m, c);
    UnionUpdate(t, Keyed(kf, vals), kf(m), c);
  }

  lemma UnionUpdate(a: map<string, CBConfig>, b: map<string, CBConfig>, k: string, c: CBConfig)
    ensures (a + b)[k := c] == a + b[k := c]
  {
  }

  lemma PutNothing(t: map<string, CBConfig>, kf: string -> string)
    requires Injective(kf)
    ensures Put(t, kf, map[]) == t
  {
    assert Keyed(kf, map[]) == map[];
  }

  /** Setting keys to the configs they already hold changes nothing. */
  lemma PutPresent(t: map<string, CBConfig>, kf: string -> string, vals: map<string, CBConfig>)
    requires Injective(kf)
    requires forall m :: m in vals ==> kf(m) in t && t[kf(m)] == vals[m]
    ensures Put(t, kf, vals) == t
  {
    var p := Put(t, kf, vals);
    forall k | k in p ensures k in t && p[k] == t[k] {
      if k in Keyed(kf, vals) {
        var m :| m in vals && kf(m) == k;
        assert p[k] == vals[m];
      }
    }
  }

  /** One update per method of `ms`, in that order, each to its config in
      `vals`. */
  function Updates(kf: string -> string, ms: seq<string>, vals: map<string, CBConfig>): seq<CBUpdate>
    requires forall i :: 0 <= i < |ms| ==> ms[i] in vals
  {
    seq(|ms|, i requires 0 <= i < |ms| => UpdateServiceCBConfig(kf(ms[i]), vals[ms[i]]))
  }

  /** `vals` cut down to the methods `ms`. */
  function Restrict(vals: map<string, CBConfig>, ms: set<string>): map<string, CBConfig> {
    map m | m in vals && m in ms :: vals[m]
  }

  lemma RestrictAdd(vals: map<string, CBConfig>, ms: seq<string>, m: string)
    requires m in vals
    ensures Restrict(vals, Elements(ms))[m := vals[m]] == Restrict(vals, Elements(ms + [m]))
  {
    assert Elements(ms + [m]) == Elements(ms) + {m};
  }

  /** Making the updates for `ms`, whatever their order, sets the key of
      each of them to its config. */
  lemma {:induction false} ApplyUpdates(t: map<string, CBConfig>, kf: string -> string, ms: seq<string>, vals: map<string, CBConfig>)
    requires Injective(kf)
    requires forall i :: 0 <= i < |ms| ==> ms[i] in vals
    ensures Apply(t, Updates(kf, ms, vals)) == Put(t, kf, Restrict(vals, Elements(ms)))
    decreases |ms|
  {
    if ms == [] {
      assert Restrict(vals, Elements(ms)) == map[];
      PutNothing(t, kf);
    } else {
      var ms' := ms[..|ms| - 1];
      var m := ms[|ms| - 1];
      var u := UpdateServiceCBConfig(kf(m), vals[m]);
      var before := Restrict(vals, Elements(ms'));
      assert ms == ms' + [m];
      assert Updates(kf, ms, vals) == Updates(kf, ms', vals) + [u];
      calc {
        Apply(t, Updates(kf, ms, vals));
        == { ApplySnoc(t, Updates(kf, ms', vals), u); }
        Apply(t, Updates(kf, ms', vals))[kf(m) := vals[m]];
        == { ApplyUpdates(t, kf, ms', vals); }
        Put(t, kf, before)[kf(m) := vals[m]];
        == { PutAdd(t, kf, before, m, vals[m]); }
        Put(t, kf, before[m := vals[m]]);
        == { RestrictAdd(vals, ms', m); }
        Put(t, kf, Restrict(vals, Elements(ms)));
      }
    }
  }

  /** The default config `dflt` for each of `ms`. */
  function Defaults(ms: set<string>, dflt: CBConfig): map<string, CBConfig> {
    map m | m in ms :: dflt
  }

  /** A key set by `Put` holds its method's config. */
  lemma PutHit(t: map<string, CBConfig>, kf: string -> string, vals: map<string, CBConfig>, m: string)
    requires Injective(kf) && m in vals
    ensures kf(m) in Put(t, kf, vals) && Put(t, kf, vals)[kf(m)] == vals[m]
  {
    assert kf(m) in Keyed(kf, vals);
  }

  /** A key `Put` does not set keeps its entry, or its absence. */
  lemma PutOther(t: map<string, CBConfig>, kf: string -> string, vals: map<string, CBConfig>, k: string)
    requires Injective(kf) && k !in Keyed(kf, vals)
    ensures k in Put(t, kf, vals) <==> k in t
    ensures k in t ==> Put(t, kf, vals)[k] == t[k]
  {
  }

  /** A key that names none of the methods of `vals` is not set for them. */
  lemma NotKeyed(toService: string, vals: map<string, CBConfig>, k: string)
    requires Injective(KeyFor(toService))
    requires MethodOf(toService, k).None? || MethodOf(toService, k).value !in vals
    ensures k !in Keyed(KeyFor(toService), vals)
  {
  }

  /** What one reload leaves at each key: see `CBReconciled`. */
  lemma ReconciledKeys(t: map<string, CBConfig>, toService: string, shadow: set<string>, configs: map<string, CBConfig>,
                        dflt: CBConfig)
    ensures Injective(KeyFor(toService))
    ensures var r := Put(Put(t, KeyFor(toService), configs), KeyFor(toService), Defaults(shadow - configs.Keys, dflt));
      && (forall m :: m in configs ==>
            GenServiceCBKey(toService, m) in r && r[GenServiceCBKey(toService, m)] == configs[m])
      && (forall m :: m in shadow && m !in configs ==>
            GenServiceCBKey(toService, m) in r && r[GenServiceCBKey(toService, m)] == dflt)
      && (forall k :: (MethodOf(toService, k).None? || MethodOf(toService, k).value !in configs.Keys + shadow) ==>
            (k in r <==> k in t) && (k in r ==> r[k] == t[k]))
  {
    KeyForInjective(toService);
    var kf := KeyFor(toService);
    var d := Defaults(shadow - configs.Keys, dflt);
    var p := Put(t, kf, configs);
    var r := Put(p, kf, d);
    forall m | m in configs
      ensures GenServiceCBKey(toService, m) in r && r[GenServiceCBKey(toService, m)] == configs[m]
    {
      PutHit(t, kf, configs, m);
      NotKeyed(toService, d, GenServiceCBKey(toService, m));
      PutOther(p, kf, d, GenServiceCBKey(toService, m));
    }
    forall m | m in shadow && m !in configs
      ensures GenServiceCBKey(toService, m) in r && r[GenServiceCBKey(toService, m)] == dflt
    {
      PutHit(p, kf, d, m);
    }
    forall k | MethodOf(toService, k).None? || MethodOf(toService, k).value !in configs.Keys + shadow
      ensures (k in r <==> k in t) && (k in r ==> r[k] == t[k])
    {
      NotKeyed(toService, configs, k);
      NotKeyed(toService, d, k);
      PutOther(t, kf, configs, k);
      PutOther(p, kf, d, k);
    }
  }

  /** The table after a reload with `configs` from table `t`, when
      `shadow` holds the methods of the previous reload. */
  function CBReconciled(t: map<string, CBConfig>, toService: string, shadow: set<string>,
                        configs: map<string, CBConfig>, dflt: CBConfig): (r: map<string, CBConfig>)
    // each method of the file gets its config;
    ensures forall m :: m in configs ==>
      GenServiceCBKey(toService, m) in r && r[GenServiceCBKey(toService, m)] == configs[m]
    // each method gone from the file since the previous reload gets the default;
    ensures forall m :: m in shadow && m !in configs ==>
      GenServiceCBKey(toService, m) in r && r[GenServiceCBKey(toService, m)] == dflt
    // every other key is untouched.
    ensures forall k :: (MethodOf(toService, k).None? || MethodOf(toService, k).value !in configs.Keys + shadow) ==>
      (k in r <==> k in t) && (k in r ==> r[k] == t[k])
  {
    ReconciledKeys(t, toService, shadow, configs, dflt);
    Put(Put(t, KeyFor(toService), configs), KeyFor(toService), Defaults(shadow - configs.Keys, dflt))
  }

  /** Updating each method of `configs` exactly once installs them all. */
  lemma UpdateEach(t: map<string, CBConfig>, kf: string -> string, configs: map<string, CBConfig>, ms: seq<string>)
    requires Injective(kf)
    requires EachOnce(ms, configs.Keys)
    ensures Apply(t, Updates(kf, ms, configs)) == Put(t, kf, configs)
  {
    ApplyUpdates(t, kf, ms, configs);
    assert Restrict(configs, Elements(ms)) == configs;
  }

  /** Resetting each of the methods `gone` exactly once sets them all to
      the default. */
  lemma ResetEach(t: map<string, CBConfig>, kf: string -> string, gone: set<string>, ms: seq<string>, dflt: CBConfig)
    requires Injective(kf)
    requires EachOnce(ms, gone)
    ensures Apply(t, Updates(kf, ms, Defaults(Elements(ms), dflt))) == Put(t, kf, Defaults(gone, dflt))
  {
    ApplyUpdates(t, kf, ms, Defaults(Elements(ms), dflt));
    assert Elements(ms) == gone;
    assert Restrict(Defaults(gone, dflt), gone) == Defaults(gone, dflt);
  }

  /** The updates one reload makes, applied to table `t`, give the
      reconciled table. */
  lemma ReloadUpdates(t: map<string, CBConfig>, toService: string, shadow: set<string>,
                      configs: map<string, CBConfig>, updated: seq<string>, reverted: seq<string>, dflt: CBConfig)
    requires EachOnce(updated, configs.Keys)
    requires EachOnce(reverted, shadow - configs.Keys)
    ensures Apply(t, Updates(KeyFor(toService), updated, configs)
                     + Updates(KeyFor(toService), reverted, Defaults(Elements(reverted), dflt)))
         == CBReconciled(t, toService, shadow, configs, dflt)
  {
    var kf := KeyFor(toService);
    KeyForInjective(toService);
    var u1 := Updates(kf, updated, configs);
    var u2 := Updates(kf, reverted, Defaults(Elements(reverted), dflt));
    ApplyAppend(t, u1, u2);
    UpdateEach(t, kf, configs, updated);
    ResetEach(Put(t, kf, configs), kf, shadow - configs.Keys, reverted, dflt);
  }

  /** Reloading the same file again changes nothing more: the configs are
      set again to the same values and nothing is reset. */
  lemma CBReconciledIdempotent(t: map<string, CBConfig>, toService: string, shadow: set<string>,
                               configs: map<string, CBConfig>, dflt: CBConfig)
    ensures CBReconciled(CBReconciled(t, toService, shadow, configs, dflt), toService, configs.Keys, configs, dflt)
         == CBReconciled(t, toService, shadow, configs, dflt)
  {
    var kf := KeyFor(toService);
    KeyForInjective(toService);
    var r := CBReconciled(t, toService, shadow, configs, dflt);
    assert Defaults(configs.Keys - configs.Keys, dflt) == map[];
    PutNothing(Put(r, kf, configs), kf);
    PutPresent(r, kf, configs);
  }

  /** The adapter state `initCircuitBreaker` builds: the breaker suite and
      the shadow set of method names seen at the previous reload. */
  class CBAdapter {
    const toService: string
    const lcb: ThreadSafeSet
    /** What the framework's `circuitbreak.GetDefaultCBConfig()` returns;
      a method that leaves the file is reset to it. */
    const defaultConfig: CBConfig
    /** Updates made on the breaker suite, in order. */
    var updates: seq<CBUpdate>

    constructor (toService: string, defaultConfig: CBConfig)
      ensures this.toService == toService && this.defaultConfig == defaultConfig
      ensures fresh(lcb) && lcb.s == map[] && updates == []
    {
      this.toService := toService;
      this.defaultConfig := defaultConfig;
      lcb := new ThreadSafeSet();
      updates := [];
    }

    /** The suite's service-level config table, starting empty. */
    function Table(): map<string, CBConfig>
      reads this
    {
      Apply(map[], updates)
    }

    /** The reload callback, with `configs` the circuit-breaker section of
      the client config just parsed: one update per method of the file, then
      one reset to the default per method that left the file. */
    method OnChange(configs: map<string, CBConfig>) returns (ghost updated: seq<string>, ghost reverted: seq<string>)
      modifies this, lcb
      ensures lcb.s == AllTrue(configs.Keys)
      ensures EachOnce(updated, configs.Keys)
      ensures EachOnce(reverted, old(lcb.s).Keys - configs.Keys)
      ensures updates == old(updates) + Updates(KeyFor(toService), updated, configs)
                                      + Updates(KeyFor(toService), reverted, Defaults(Elements(reverted), defaultConfig))
      ensures Table() == CBReconciled(old(Table()), toService, old(lcb.s).Keys, configs, defaultConfig)
    {
      var seen;
      seen, updated := UpdateAll(configs);
      var removed := lcb.DiffAndEmplace(seen);
      ResetAll(removed);
      reverted := removed;
      ghost var u1 := Updates(KeyFor(toService), updated, configs);
      ghost var u2 := Updates(KeyFor(toService), reverted, Defaults(Elements(reverted), defaultConfig));
      assert old(updates) + u1 + u2 == old(updates) + (u1 + u2);
      ApplyAppend(map[], old(updates), u1 + u2);
      ReloadUpdates(old(Table()), toService, old(lcb.s).Keys, configs, updated, reverted, defaultConfig);
    }

    /** The first loop of the callback: every method goes into the new
      shadow set and gets its config, once. */
    method UpdateAll(configs: map<string, CBConfig>) returns (seen: Set, ghost updated: seq<string>)
      modifies this
      ensures seen == AllTrue(configs.Keys)
      ensures EachOnce(updated, configs.Keys)
      ensures updates == old(updates) + Updates(KeyFor(toService), updated, configs)
    {
      seen := map[];
      var rest := configs.Keys;
      updated := [];
      while rest != {}
        invariant rest <= configs.Keys
        invariant seen == AllTrue(configs.Keys - rest)
        invariant NoDup(updated)
        invariant forall i :: 0 <= i < |updated| ==> updated[i] in configs.Keys - rest
        invariant forall m :: m in configs.Keys - rest ==> m in updated
        invariant updates == old(updates) + Updates(KeyFor(toService), updated, configs)
        decreases rest
      {
        var m :| m in rest;
        seen := seen[m := true];
        Update(GenServiceCBKey(toService, m), configs[m]);
        assert Updates(KeyFor(toService), updated + [m], configs)
            == Updates(KeyFor(toService), updated, configs) + [UpdateServiceCBConfig(GenServiceCBKey(toService, m), configs[m])];
        updated := updated + [m];
        rest := rest - {m};
      }
    }

    /** The second loop of the callback: reset each of `ms` to the default. */
    method ResetAll(ms: seq<string>)
      modifies this
      ensures updates == old(updates) + Updates(KeyFor(toService), ms, Defaults(Elements(ms), defaultConfig))
    {
      ghost var d := Defaults(Elements(ms), defaultConfig);
      for i := 0 to |ms|
        invariant updates == old(updates) + Updates(KeyFor(toService), ms[..i], d)
      {
        Update(GenServiceCBKey(toService, ms[i]), defaultConfig);
        assert ms[..i + 1] == ms[..i] + [ms[i]];
        assert Updates(KeyFor(toService), ms[..i + 1], d)
            == Updates(KeyFor(toService), ms[..i], d) + [UpdateServiceCBConfig(GenServiceCBKey(toService, ms[i]), defaultConfig)];
      }
      assert ms[..|ms|] == ms;
    }

    /** `UpdateServiceCBConfig` on the suite. */
    method Update(key: string, config: CBConfig)
      modifies this
      ensures updates == old(updates) + [UpdateServiceCBConfig(key, config)]
    {
      updates := updates + [UpdateServiceCBConfig(key, config)];
    }
  }
}
