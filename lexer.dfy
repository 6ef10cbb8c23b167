/**
 * What the tag scanner sees of the package's lexer and of its reader.
 *
 * The lexer itself lives outside types.go and is not part of this model: it
 * is an uninterpreted stateful classifier. `reset` gives its initial state,
 * `state(r)` moves it to a new state and returns one of five classes, and
 * `err` is the error it recorded. The reader's UTF-8 decoding is not
 * modelled either: the buffer arrives already split into runes, each with the
 * number of bytes it occupies.
 */
module Lexer {
  import opened GoBase

  /** The five classes `lex.state` can return. */
  datatype LexClass = Cont | Ignore | End | EndPrev | Error

  /** A lexer: its reset state, its step `state(r)` and its recorded error. */
  datatype Lexer<!S> = Lexer(reset: S, step: (S, rune) -> (S, LexClass), err: S -> Error)

  /** One call of `bufio.Reader.ReadRune`: the rune and its length in bytes. */
  datatype RuneRead = RuneRead(r: rune, size: nat)

  /** Byte offset of rune `n`: the total length of the runes before it. */
  function Offset(runes: seq<RuneRead>, n: nat): nat
    requires n <= |runes|
  {
    if n == 0 then 0 else Offset(runes, n - 1) + runes[n - 1].size
  }

  /** The runes are what ReadRune returns on a buffer of `len` bytes: each is 1 to 4 bytes and they tile it. */
  predicate Tiles(runes: seq<RuneRead>, len: nat) {
    (forall i :: 0 <= i < |runes| ==> 1 <= runes[i].size <= 4) && Offset(runes, |runes|) == len
  }

  /** The lexer's state after it has classified the first `n` runes. */
  function StateAfter<S>(lx: Lexer<S>, runes: seq<RuneRead>, n: nat): S
    requires n <= |runes|
  {
    if n == 0 then lx.reset else lx.step(StateAfter(lx, runes, n - 1), runes[n - 1].r).0
  }

  /** The class the lexer gives rune `i` when it has been fed every rune before it. */
  function ClassAt<S>(lx: Lexer<S>, runes: seq<RuneRead>, i: nat): LexClass
    requires i < |runes|
  {
    lx.step(StateAfter(lx, runes, i), runes[i].r).1
  }

  /** The classes on which the scanner keeps reading. */
  predicate InName(c: LexClass) {
    c == Ignore || c == Cont
  }

  /** Total length of the runes before rune `n` that the lexer classifies Ignore. */
  function IgnoredLength<S>(lx: Lexer<S>, runes: seq<RuneRead>, n: nat): nat
    requires n <= |runes|
  {
    if n == 0 then 0
    else IgnoredLength(lx, runes, n - 1) + (if ClassAt(lx, runes, n - 1) == Ignore then runes[n - 1].size else 0)
  }

  /** The first rune at or after `from` on which the scanner stops, or `|runes|` when it never does. */
  function FirstStop<S>(lx: Lexer<S>, runes: seq<RuneRead>, from: nat): (k: nat)
    requires from <= |runes|
    ensures from <= k <= |runes|
    ensures forall j :: from <= j < k ==> InName(ClassAt(lx, runes, j))
    ensures k < |runes| ==> !InName(ClassAt(lx, runes, k))
    decreases |runes| - from
  {
    if from == |runes| then from
    else if InName(ClassAt(lx, runes, from)) then FirstStop(lx, runes, from + 1)
    else from
  }

  /** Any index that is preceded only by Ignore and Cont runes and is itself a stop (or the end) is the first stop. */
  lemma FirstStopAt<S>(lx: Lexer<S>, runes: seq<RuneRead>, k: nat)
    requires k <= |runes|
    requires forall j :: 0 <= j < k ==> InName(ClassAt(lx, runes, j))
    requires k < |runes| ==> !InName(ClassAt(lx, runes, k))
    ensures FirstStop(lx, runes, 0) == k
  {
    var f := FirstStop(lx, runes, 0);
  }

  /** The ignored bytes never exceed the bytes read: `start <= endTag` throughout the scan. */
  lemma {:induction false} IgnoredWithinOffset<S>(lx: Lexer<S>, runes: seq<RuneRead>, n: nat)
    requires n <= |runes|
    ensures IgnoredLength(lx, runes, n) <= Offset(runes, n)
  {
    if n > 0 {
      IgnoredWithinOffset(lx, runes, n - 1);
    }
  }

  /** Every rune lies inside the buffer its stream tiles. */
  lemma {:induction false} RuneWithinBuffer(runes: seq<RuneRead>, len: nat, n: nat)
    requires Tiles(runes, len)
    requires n < |runes|
    ensures Offset(runes, n) + runes[n].size <= len
  {
    OffsetMonotone(runes, n + 1, |runes|);
  }

  lemma {:induction false} OffsetMonotone(runes: seq<RuneRead>, m: nat, n: nat)
    requires m <= n <= |runes|
    ensures Offset(runes, m) <= Offset(runes, n)
    decreases n - m
  {
    if m < n {
      OffsetMonotone(runes, m, n - 1);
    }
  }

  /**
   * Some byte before rune `n` was not ignored exactly when some rune before it
   * was classified other than Ignore (every rune is at least one byte long).
   */
  lemma {:induction false} IgnoredShortIff<S>(lx: Lexer<S>, runes: seq<RuneRead>, n: nat)
    requires n <= |runes|
    requires forall i :: 0 <= i < |runes| ==> 1 <= runes[i].size
    ensures IgnoredLength(lx, runes, n) < Offset(runes, n) <==>
            exists j :: 0 <= j < n && ClassAt(lx, runes, j) != Ignore
  {
    if n > 0 {
      IgnoredShortIff(lx, runes, n - 1);
      IgnoredWithinOffset(lx, runes, n - 1);
      if ClassAt(lx, runes, n - 1) != Ignore {
        assert runes[n - 1].size >= 1;
      }
    }
  }

  /** When the runes from `p` to `m` are all classified Cont, the ignored length stops growing at `p`. */
  lemma {:induction false} IgnoredLengthFlat<S>(lx: Lexer<S>, runes: seq<RuneRead>, p: nat, m: nat)
    requires p <= m <= |runes|
    requires forall j :: p <= j < m ==> ClassAt(lx, runes, j) == Cont
    ensures IgnoredLength(lx, runes, m) == IgnoredLength(lx, runes, p)
    decreases m - p
  {
    if p < m {
      IgnoredLengthFlat(lx, runes, p, m - 1);
    }
  }

  /**
   * The ignored length never shrinks, and it grows from rune `p` to rune `m`
   * exactly when some rune in between is classified Ignore.
   */
  lemma {:induction false} IgnoredGrowsIff<S>(lx: Lexer<S>, runes: seq<RuneRead>, p: nat, m: nat)
    requires p <= m <= |runes|
    requires forall i :: 0 <= i < |runes| ==> 1 <= runes[i].size
    ensures IgnoredLength(lx, runes, p) <= IgnoredLength(lx, runes, m)
    ensures IgnoredLength(lx, runes, p) < IgnoredLength(lx, runes, m) <==>
            exists j :: p <= j < m && ClassAt(lx, runes, j) == Ignore
    decreases m - p
  {
    if p < m {
      IgnoredGrowsIff(lx, runes, p, m - 1);
      if ClassAt(lx, runes, m - 1) == Ignore {
        assert runes[m - 1].size >= 1;
      }
    }
  }

  /** When the runes before `p` are all classified Ignore, they are all ignored bytes. */
  lemma {:induction false} IgnoredLengthFull<S>(lx: Lexer<S>, runes: seq<RuneRead>, p: nat)
    requires p <= |runes|
    requires forall j :: 0 <= j < p ==> ClassAt(lx, runes, j) == Ignore
    ensures IgnoredLength(lx, runes, p) == Offset(runes, p)
  {
    if p > 0 {
      IgnoredLengthFull(lx, runes, p - 1);
    }
  }
}
