/** The retry adapter of client/retry.go: on every reload it hands each
    method's retry policy to the client's retry container, and removes the
    policies of methods that vanished from the file since the last reload.

    The retry container belongs to the RPC framework; it is modelled by the
    calls the adapter makes on it (`calls`) and by the policy table those
    calls leave behind (`Apply`). */
module Retry {
  import opened Common
  import opened Parser
  import opened Sets

  datatype RetryCall =
    | NotifyPolicyChange(methodName: string, policy: RetryPolicy)
    | DeletePolicy(methodName: string)

  /** A policy the adapter passes on: exactly one of the backup and the
      failure sub-policies is set. */
  predicate Applicable(p: RetryPolicy) {
    p.backupPolicy.Some? != p.failurePolicy.Some?
  }

  function ValidMethods(rcs: map<string, RetryPolicy>): set<string> {
    set m | m in rcs && Applicable(rcs[m])
  }

  /** The container's effect of one call on its method -> policy table. */
  function ApplyOne(st: map<string, RetryPolicy>, c: RetryCall): map<string, RetryPolicy> {
    match c
    case NotifyPolicyChange(m, p) => st[m := p]
    case DeletePolicy(m) => st - {m}
  }

  /** The table after `calls`, in order, from `st`. */
  function Apply(st: map<string, RetryPolicy>, calls: seq<RetryCall>): map<string, RetryPolicy>
    decreases |calls|
  {
    if calls == [] then st else ApplyOne(Apply(st, calls[..|calls| - 1]), calls[|calls| - 1])
  }

  lemma ApplySnoc(st: map<string, RetryPolicy>, calls: seq<RetryCall>, c: RetryCall)
    ensures Apply(st, calls + [c]) == ApplyOne(Apply(st, calls), c)
  {
    assert (calls + [c])[..|calls|] == calls;
  }

  /** The notifications for methods `ms`, in that order. */
  function Notifications(ms: seq<string>, rcs: map<string, RetryPolicy>): seq<RetryCall>
    requires forall i :: 0 <= i < |ms| ==> ms[i] in rcs
  {
    seq(|ms|, i requires 0 <= i < |ms| => NotifyPolicyChange(ms[i], rcs[ms[i]]))
  }

  /** The deletions for methods `ms`, in that order. */
  function Deletions(ms: seq<string>): seq<RetryCall> {
    seq(|ms|, i requires 0 <= i < |ms| => DeletePolicy(ms[i]))
  }

  /** `st` with the policies of the methods `ms` taken from `rcs`. */
  function Overlay(st: map<string, RetryPolicy>, ms: set<string>, rcs: map<string, RetryPolicy>): map<string, RetryPolicy>
    requires ms <= rcs.Keys
  {
    map m | m in st.Keys + ms :: if m in ms then rcs[m] else st[m]
  }

  lemma OverlayAdd(st: map<string, RetryPolicy>, ms: set<string>, m: string, rcs: map<string, RetryPolicy>)
    requires ms <= rcs.Keys && m in rcs
    ensures Overlay(st, ms, rcs)[m := rcs[m]] == Overlay(st, ms + {m}, rcs)
  {
  }

  lemma {:induction false} ApplyAppend(st: map<string, RetryPolicy>, a: seq<RetryCall>, b: seq<RetryCall>)
    ensures Apply(st, a + b) == Apply(Apply(st, a), b)
    decreases |b|
  {
    if b != [] {
      var b' := b[..|b| - 1];
      var c := b[|b| - 1];
      assert b == b' + [c];
      assert a + b == (a + b') + [c];
      ApplySnoc(st, a + b', c);
      ApplyAppend(st, a, b');
      ApplySnoc(Apply(st, a), b', c);
    } else {
      assert a + b == a;
    }
  }

  /** Notifying the methods `ms`, in any order and even repeatedly, installs
      each one's policy. */
  lemma {:induction false} ApplyNotifications(st: map<string, RetryPolicy>, ms: seq<string>, rcs: map<string, RetryPolicy>)
    requires forall i :: 0 <= i < |ms| ==> ms[i] in rcs
    ensures Apply(st, Notifications(ms, rcs)) == Overlay(st, Elements(ms), rcs)
    decreases |ms|
  {
    if ms == [] {
      assert Notifications(ms, rcs) == [];
      assert Elements(ms) == {};
    } else {
      var ms' := ms[..|ms| - 1];
      var m := ms[|ms| - 1];
      assert ms == ms' + [m];
      NotificationsSnoc(ms', m, rcs);
      ApplySnoc(st, Notifications(ms', rcs), NotifyPolicyChange(m, rcs[m]));
      ApplyNotifications(st, ms', rcs);
      OverlayAdd(st, Elements(ms'), m, rcs);
      assert Elements(ms) == Elements(ms') + {m};
    }
  }

  lemma NotificationsSnoc(ms: seq<string>, m: string, rcs: map<string, RetryPolicy>)
    requires forall i :: 0 <= i < |ms| ==> ms[i] in rcs
    requires m in rcs
    ensures Notifications(ms + [m], rcs) == Notifications(ms, rcs) + [NotifyPolicyChange(m, rcs[m])]
  {
  }

  lemma SeenStep(ks: set<string>, rest: set<string>, m: string)
    requires m in rest && rest <= ks
    ensures AllTrue(ks - rest)[m := true] == AllTrue(ks - (rest - {m}))
  {
    assert ks - (rest - {m}) == (ks - rest) + {m};
  }

  lemma ValidStep(rcs: map<string, RetryPolicy>, rest: set<string>, m: string)
    requires m in rest && m in rcs
    ensures ValidMethods(rcs) - (rest - {m}) ==
      if Applicable(rcs[m]) then (ValidMethods(rcs) - rest) + {m} else ValidMethods(rcs) - rest
  {
  }

  /** The table after a reload with `rcs` from table `st`, when `shadow`
      holds the methods of the previous reload. Every method is in exactly
      one of four cases. */
  function Reconciled(st: map<string, RetryPolicy>, shadow: set<string>, rcs: map<string, RetryPolicy>): (r: map<string, RetryPolicy>)
    // a well-formed policy in the file is installed;
    ensures forall m :: m in ValidMethods(rcs) ==> m in r && r[m] == rcs[m]
    // a malformed one is skipped, so the previous policy stays in force;
    ensures forall m :: m in rcs && !Applicable(rcs[m]) ==>
      (m in r <==> m in st) && (m in r ==> r[m] == st[m])
    // a method gone from the file since the previous reload is deleted;
    ensures forall m :: m in shadow && m !in rcs ==> m !in r
    // any other method is untouched.
    ensures forall m :: m !in rcs && m !in shadow ==>
      (m in r <==> m in st) && (m in r ==> r[m] == st[m])
  {
    Overlay(st, ValidMethods(rcs), rcs) - (shadow - rcs.Keys)
  }

  /** Reloading the same file again changes nothing more. */
  lemma ReconciledIdempotent(st: map<string, RetryPolicy>, shadow: set<string>, rcs: map<string, RetryPolicy>)
    ensures Reconciled(Reconciled(st, shadow, rcs), rcs.Keys, rcs) == Reconciled(st, shadow, rcs)
  {
  }

  /** The adapter state `initRetryContainer` builds: the container and the
      shadow set of method names seen at the previous reload. */
  class RetryAdapter {
    const ts: ThreadSafeSet
    /** Calls made on the retry container, in order. */
    var calls: seq<RetryCall>

    constructor ()
      ensures fresh(ts) && ts.s == map[] && calls == []
    {
      ts := new ThreadSafeSet();
      calls := [];
    }

    /** The container's policy table, starting empty. */
    function Container(): map<string, RetryPolicy>
      reads this
    {
      Apply(map[], calls)
    }

    /** The reload callback, with `rcs` the retry section of the client
      config just parsed. Every method of the file is recorded in the
      shadow set, malformed ones included; each well-formed policy is
      notified once; then each method that left the file is deleted once. */
    method OnChange(rcs: map<string, RetryPolicy>) returns (ghost notified: seq<string>, ghost deleted: seq<string>)
      modifies this, ts
      ensures ts.s == AllTrue(rcs.Keys)
      ensures EachOnce(notified, ValidMethods(rcs))
      ensures EachOnce(deleted, old(ts.s).Keys - rcs.Keys)
      ensures forall i :: 0 <= i < |notified| ==> notified[i] in rcs
      ensures calls == old(calls) + Notifications(notified, rcs) + Deletions(deleted)
      ensures Container() == Reconciled(old(Container()), old(ts.s).Keys, rcs)
    {
      var seen;
      seen, notified := NotifyAll(rcs);
      ApplyAppend(map[], old(calls), Notifications(notified, rcs));
      ApplyNotifications(old(Container()), notified, rcs);
      assert Elements(notified) == ValidMethods(rcs);
      var removed := ts.DiffAndEmplace(seen);
      DeleteAll(removed);
      deleted := removed;
      assert Elements(removed) == old(ts.s).Keys - rcs.Keys;
    }

    /** The first loop of the callback: every method goes into the new
      shadow set; every well-formed policy is notified, once. */
    method NotifyAll(rcs: map<string, RetryPolicy>) returns (seen: Set, ghost notified: seq<string>)
      modifies this
      ensures seen == AllTrue(rcs.Keys)
      ensures EachOnce(notified, ValidMethods(rcs))
      ensures forall i :: 0 <= i < |notified| ==> notified[i] in rcs
      ensures calls == old(calls) + Notifications(notified, rcs)
    {
      seen := map[];
      var rest := rcs.Keys;
      notified := [];
      while rest != {}
        invariant rest <= rcs.Keys
        invariant seen == AllTrue(rcs.Keys - rest)
        invariant EachOnce(notified, ValidMethods(rcs) - rest)
        invariant calls == old(calls) + Notifications(notified, rcs)
        decreases rest
      {
        var m :| m in rest;
        SeenStep(rcs.Keys, rest, m);
        ValidStep(rcs, rest, m);
        ghost var applied := ValidMethods(rcs) - rest;
        seen := seen[m := true];
        rest := rest - {m};
        var passed := Visit(m, rcs[m]);
        if passed {
          NotificationsSnoc(notified, m, rcs);
          EachOnceSnoc(notified, applied, m);
          notified := notified + [m];
        }
      }
    }

    /** The body of the first loop for method `m`: a policy with both or
      neither sub-policy set is skipped; any other is notified. */
    method Visit(m: string, policy: RetryPolicy) returns (passed: bool)
      modifies this
      ensures passed == Applicable(policy)
      ensures passed ==> calls == old(calls) + [NotifyPolicyChange(m, policy)]
      ensures !passed ==> calls == old(calls)
    {
      if policy.backupPolicy.Some? && policy.failurePolicy.Some? {
        return false;
      }
      if policy.backupPolicy.None? && policy.failurePolicy.None? {
        return false;
      }
      Notify(m, policy);
      return true;
    }

    /** The second loop of the callback: delete each of `ms`, in order. */
    method DeleteAll(ms: seq<string>)
      modifies this
      ensures calls == old(calls) + Deletions(ms)
      ensures Container() == old(Container()) - Elements(ms)
    {
      for i := 0 to |ms|
        invariant calls == old(calls) + Deletions(ms[..i])
        invariant Container() == old(Container()) - Elements(ms[..i])
      {
        Delete(ms[i]);
        assert Deletions(ms[..i + 1]) == Deletions(ms[..i]) + [DeletePolicy(ms[i])];
        assert Elements(ms[..i + 1]) == Elements(ms[..i]) + {ms[i]} by {
          assert ms[..i + 1] == ms[..i] + [ms[i]];
        }
      }
      assert ms[..|ms|] == ms;
    }

    /** `NotifyPolicyChange` on the container. */
    method Notify(m: string, policy: RetryPolicy)
      modifies this
      ensures calls == old(calls) + [NotifyPolicyChange(m, policy)]
      ensures Container() == old(Container())[m := policy]
    {
      ApplySnoc(map[], calls, NotifyPolicyChange(m, policy));
      calls := calls + [NotifyPolicyChange(m, policy)];
    }

    /** `DeletePolicy` on the container. */
    method Delete(m: string)
      modifies this
      ensures calls == old(calls) + [DeletePolicy(m)]
      ensures Container() == old(Container()) - {m}
    {
      ApplySnoc(map[], calls, DeletePolicy(m));
      calls := calls + [DeletePolicy(m)];
    }
  }
}
