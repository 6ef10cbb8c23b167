/**
 * Go's `strings.Join`, which every container text form uses, and
 * `strings.Split` on a one-byte separator, its inverse on parts that do not
 * contain the separator.
 */
module Strings {
  import opened GoBase

  /** `strings.Join(parts, sep)`: the parts with `sep` between neighbours. */
  function Join(parts: seq<seq<byte>>, sep: seq<byte>): seq<byte>
    decreases |parts|
  {
    if |parts| == 0 then []
    else if |parts| == 1 then parts[0]
    else parts[0] + sep + Join(parts[1..], sep)
  }

  /** Index of the first `c` in `s`, or `|s|` when there is none. */
  function IndexOf(s: seq<byte>, c: byte): (i: nat)
    ensures i <= |s|
    ensures i < |s| ==> s[i] == c
    ensures c !in s[..i]
    ensures i == |s| <==> c !in s
    decreases |s|
  {
    if |s| == 0 then 0
    else if s[0] == c then 0
    else
      var j := IndexOf(s[1..], c);
      assert s[1..][..j] == s[1..j + 1];
      assert s[..j + 1] == [s[0]] + s[1..j + 1];
      1 + j
  }

  /** `strings.Split(s, string(c))`: the pieces of `s` between occurrences of `c`. */
  function Split(s: seq<byte>, c: byte): (parts: seq<seq<byte>>)
    ensures |parts| >= 1
    decreases |s|
  {
    var i := IndexOf(s, c);
    if i == |s| then [s] else [s[..i]] + Split(s[i + 1..], c)
  }

  predicate Excludes(parts: seq<seq<byte>>, c: byte) {
    forall k :: 0 <= k < |parts| ==> c !in parts[k]
  }

  /** Joining with a one-byte separator loses nothing when no part contains it. */
  lemma {:induction false} SplitJoin(parts: seq<seq<byte>>, c: byte)
    requires |parts| >= 1
    requires Excludes(parts, c)
    ensures Split(Join(parts, [c]), c) == parts
    decreases |parts|
  {
    if |parts| == 1 {
      assert c !in parts[0];
    } else {
      var tail := parts[1..];
      ExcludesTail(parts, c);
      SplitJoin(tail, c);
      SplitAtFirst(parts[0], c, Join(tail, [c]));
      assert parts == [parts[0]] + tail;
    }
  }

  lemma ExcludesTail(parts: seq<seq<byte>>, c: byte)
    requires |parts| >= 1
    requires Excludes(parts, c)
    ensures c !in parts[0] && Excludes(parts[1..], c)
  {
    forall k | 0 <= k < |parts| - 1 ensures c !in parts[1..][k] {
      assert parts[1..][k] == parts[k + 1];
    }
  }

  /** Split cuts at the first separator. */
  lemma SplitAtFirst(head: seq<byte>, c: byte, rest: seq<byte>)
    requires c !in head
    ensures Split(head + [c] + rest, c) == [head] + Split(rest, c)
  {
    var s := head + [c] + rest;
    IndexOfAfterPrefix(head, c, rest);
    assert s[..|head|] == head;
    assert s[|head| + 1..] == rest;
  }

  lemma {:induction false} IndexOfAfterPrefix(p: seq<byte>, c: byte, rest: seq<byte>)
    requires c !in p
    ensures IndexOf(p + [c] + rest, c) == |p|
    decreases |p|
  {
    if |p| > 0 {
      assert (p + [c] + rest)[1..] == p[1..] + [c] + rest;
      IndexOfAfterPrefix(p[1..], c, rest);
    }
  }
}
