/** Shared vocabulary of the hot-reload model: failure-compatible wrappers,
    raw file bytes, the outcome of a read, and the "each exactly once" shape
    that stands for a Go `range` over a map (whose order is unspecified). */
module Common {

  datatype Option<+T> = None | Some(value: T)

  datatype Result<+T, +E> = Success(value: T) | Failure(error: E)

  /** The raw contents of the watched configuration file. */
  type Bytes = seq<bv8>

  /** Identity of a Go `func()` value handed to a registry; invoking it is
      recorded in a trace rather than executed. */
  type CallbackId = nat

  /** What reading the whole file returned: its bytes, or an I/O error. */
  datatype ReadResult = ReadOk(data: Bytes) | ReadFailed

  /** How one reload attempt ended. */
  datatype ParseOutcome = ReadError | DecodeFailed | KeyMissing | Applied

  /** The elements of `s`, as a set. */
  function Elements<T>(s: seq<T>): set<T> {
    set x | x in s
  }

  predicate NoDup<T(==)>(s: seq<T>) {
    forall i, j :: 0 <= i < j < |s| ==> s[i] != s[j]
  }

  /** `s` lists every element of `xs` exactly once, in some order: what a
      loop over the keys of a Go map visits. */
  predicate EachOnce<T(==)>(s: seq<T>, xs: set<T>) {
    && NoDup(s)
    && (forall i :: 0 <= i < |s| ==> s[i] in xs)
    && (forall x :: x in xs ==> x in s)
  }

  /** Visiting one more, new, element extends the enumeration. */
  lemma EachOnceSnoc<T>(s: seq<T>, xs: set<T>, x: T)
    requires EachOnce(s, xs) && x !in xs
    ensures EachOnce(s + [x], xs + {x})
  {
  }

  /** An enumeration has exactly as many entries as the set it enumerates,
      so it is empty exactly when the set is. */
  lemma {:induction false} EachOnceSize<T>(s: seq<T>, xs: set<T>)
    requires EachOnce(s, xs)
    ensures |s| == |xs|
    ensures s == [] <==> xs == {}
  {
    if s == [] {
      assert forall x :: x !in xs;
      assert xs == {};
    } else {
      var rest := s[1..];
      assert s == [s[0]] + rest;
      assert s[0] !in rest by {
        forall i | 0 <= i < |rest| ensures rest[i] != s[0] {
          assert rest[i] == s[i + 1];
        }
      }
      assert NoDup(rest) by {
        forall i, j | 0 <= i < j < |rest| ensures rest[i] != rest[j] {
          assert rest[i] == s[i + 1] && rest[j] == s[j + 1];
        }
      }
      forall x ensures x in rest <==> x in xs - {s[0]} {
        if x in rest {
          assert x in s;
        }
        if x in xs - {s[0]} {
          assert x in s;
          var i :| 0 <= i < |s| && s[i] == x;
          assert i != 0;
          assert rest[i - 1] == x;
        }
      }
      EachOnceSize(rest, xs - {s[0]});
      assert s[0] in xs;
    }
  }
}
