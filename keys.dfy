/** Routing keys of monitor/key.go: a key names a client/server pair as
    "from/to"; parsing splits it back on "/". */
module Keys {
  import opened Common

  /** `monitor.Key`. `tags` is never filled in by `ParseKey` (a nil map). */
  datatype Key = Key(clientName: string, serverName: string, tags: map<string, string>)

  datatype KeyError = InvalidKey(key: string)

  /** `DefaultKeyProvider.GetKey`: the caller's service name, "/", the
      callee's service name (`from` and `to` are the two service names the
      RPC info carries). */
  function GetKey(from: string, to: string): (k: string)
    ensures |k| == |from| + 1 + |to|
    ensures k[..|from|] == from && k[|from|] == '/' && k[|from| + 1..] == to
  {
    from + "/" + to
  }

  /** Number of occurrences of `c` in `s`. */
  function Count(s: string, c: char): nat {
    if s == [] then 0 else (if s[0] == c then 1 else 0) + Count(s[1..], c)
  }

  /** Go's `strings.Split(s, sep)` for a one-character separator: the pieces
      between separators, empty pieces included, so never an empty list. */
  function Split(s: string, sep: char): (parts: seq<string>)
    ensures |parts| == Count(s, sep) + 1
    ensures forall i :: 0 <= i < |parts| ==> sep !in parts[i]
  {
    if s == [] then [""]
    else if s[0] == sep then [""] + Split(s[1..], sep)
    else
      var rest := Split(s[1..], sep);
      [[s[0]] + rest[0]] + rest[1..]
  }

  /** Go's `strings.Join`, the inverse of `Split`. */
  function Join(parts: seq<string>, sep: char): string
    requires |parts| >= 1
  {
    if |parts| == 1 then parts[0] else parts[0] + [sep] + Join(parts[1..], sep)
  }

  lemma {:induction false} SplitJoin(s: string, sep: char)
    ensures Join(Split(s, sep), sep) == s
  {
    if s != [] {
      SplitJoin(s[1..], sep);
      var rest := Split(s[1..], sep);
      if s[0] != sep && |rest| > 1 {
        assert Join(rest, sep) == rest[0] + [sep] + Join(rest[1..], sep);
        var parts := Split(s, sep);
        assert parts[1..] == rest[1..];
      }
    }
  }

  lemma {:induction false} SplitAfterPrefix(a: string, b: string, sep: char)
    requires sep !in a
    ensures Split(a + [sep] + b, sep) == [a] + Split(b, sep)
  {
    if a != [] {
      assert (a + [sep] + b)[1..] == a[1..] + [sep] + b;
      SplitAfterPrefix(a[1..], b, sep);
      assert [a[0]] + a[1..] == a;
    } else {
      assert a + [sep] + b == [sep] + b;
      assert ([sep] + b)[1..] == b;
    }
  }

  lemma {:induction false} SplitWithoutSep(s: string, sep: char)
    requires sep !in s
    ensures Split(s, sep) == [s]
  {
    CountZero(s, sep);
    SplitJoin(s, sep);
  }

  lemma {:induction false} CountZero(s: string, c: char)
    requires c !in s
    ensures Count(s, c) == 0
  {
    if s != [] {
      CountZero(s[1..], c);
    }
  }

  /** `DefaultKeyProvider.ParseKey`: succeeds exactly when the key holds one
      "/" (`strings.Split` gives two parts); then the names are the text
      before and after it, composing them again gives the key back, and no
      tags are set. */
  function ParseKey(key: string): (r: Result<Key, KeyError>)
    ensures r.Success? <==> Count(key, '/') == 1
    ensures r.Failure? ==> r.error == InvalidKey(key)
    ensures r.Success? ==> GetKey(r.value.clientName, r.value.serverName) == key
    ensures r.Success? ==> '/' !in r.value.clientName && '/' !in r.value.serverName
    ensures r.Success? ==> r.value.tags == map[]
  {
    var parts := Split(key, '/');
    if |parts| != 2 then Failure(InvalidKey(key))
    else
      SplitJoin(key, '/');
      Success(Key(parts[0], parts[1], map[]))
  }

  /** Composing then parsing is the identity on names without "/". */
  lemma {:induction false} ParseKeyOfGetKey(from: string, to: string)
    requires '/' !in from && '/' !in to
    ensures ParseKey(GetKey(from, to)) == Success(Key(from, to, map[]))
  {
    SplitAfterPrefix(from, to, '/');
    SplitWithoutSep(to, '/');
  }

  /** "/" alone parses to two empty names. */
  lemma ParseKeyOfSlash()
    ensures ParseKey("/") == Success(Key("", "", map[]))
  {
    ParseKeyOfGetKey("", "");
  }
}
