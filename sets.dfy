/** The shadow set of utils/set.go: the set of method names a policy adapter
    applied last time, and the difference that tells it which methods to
    revert on this reload. */
module Sets {
  import opened Common

  /** `utils.Set`: a string set stored as a map. Only the keys matter; the
      stored bool is never consulted. A nil Go map is the empty map. */
  type Set = map<string, bool>

  /** The set holding exactly `ks`, as the adapters build it. */
  function AllTrue(ks: set<string>): Set {
    map k | k in ks :: true
  }

  /** The keys of `s` that are not keys of `other`, each exactly once, in the
      unspecified order of a Go map range. A key mapped to `false` in `other`
      still counts as present. Neither argument changes (both are values). */
  method Diff(s: Set, other: Set) returns (out: seq<string>)
    ensures EachOnce(out, s.Keys - other.Keys)
    ensures |out| <= |s|
    ensures out == [] <==> s.Keys <= other.Keys
  {
    out := [];
    var rest := s.Keys;
    while rest != {}
      invariant rest <= s.Keys
      invariant NoDup(out)
      invariant forall i :: 0 <= i < |out| ==> out[i] in s.Keys - rest && out[i] !in other
      invariant forall k :: k in s.Keys - rest && k !in other ==> k in out
      decreases rest
    {
      var key :| key in rest;
      if key !in other {
        out := out + [key];
      }
      rest := rest - {key};
    }
    EachOnceSize(out, s.Keys - other.Keys);
    assert s.Keys - other.Keys <= s.Keys;
    SubsetSize(s.Keys - other.Keys, s.Keys);
  }

  lemma SubsetSize(a: set<string>, b: set<string>)
    requires a <= b
    ensures |a| <= |b|
  {
    assert b == a + (b - a);
  }

  /** `utils.ThreadSafeSet`: the shadow set an adapter owns. The mutex is
      not modelled: every call runs to completion before the next. */
  class ThreadSafeSet {
    var s: Set

    /** The zero value `utils.ThreadSafeSet{}`: a nil (empty) set. */
    constructor ()
      ensures s == map[]
    {
      s := map[];
    }

    /** Reports the stored keys missing from `other`, then stores `other`. */
    method DiffAndEmplace(other: Set) returns (out: seq<string>)
      modifies this
      ensures EachOnce(out, old(s).Keys - other.Keys)
      ensures out == [] <==> old(s).Keys <= other.Keys
      ensures s == other
    {
      out := Diff(s, other);
      s := other;
    }
  }

  /** Two reloads of the same file: the second `DiffAndEmplace` with the
      set just stored reports nothing. */
  method DiffAndEmplaceTwice(t: ThreadSafeSet, other: Set) returns (first: seq<string>, second: seq<string>)
    modifies t
    ensures EachOnce(first, old(t.s).Keys - other.Keys)
    ensures second == [] && t.s == other
  {
    first := t.DiffAndEmplace(other);
    second := t.DiffAndEmplace(other);
  }

  /** The first reload on a zero-value shadow set reports nothing. */
  method DiffAndEmplaceOnZero(other: Set) returns (out: seq<string>)
    ensures out == []
  {
    var t := new ThreadSafeSet();
    out := t.DiffAndEmplace(other);
  }
}
