/**
 * The scalar kinds `Keyword` and `Symbol` (types.go:15-33): each is a name,
 * and each owns its text form and its encoded form.
 */
module Scalars {
  import opened GoBase

  const Colon: byte := 0x3A

  /** `Keyword`: a name printed after a colon. */
  datatype Keyword = Keyword(name: seq<byte>) {
    /** `fmt.Sprintf(":%s", k)`: a colon, then the name as it is. */
    function String(): (s: seq<byte>)
      ensures |s| == |name| + 1 && s[0] == Colon && s[1..] == name
    {
      Bytes(":") + name
    }

    /** The encoded form is the text form, with a nil error. */
    function MarshalEDN(): (r: Result<seq<byte>>)
      ensures r.Ok? && r.value == String()
    {
      Ok(String())
    }
  }

  /** The bytes that end a token in edn: whitespace and the comma, which edn counts as whitespace. */
  predicate IsDelimiter(c: byte) {
    c == 0x20 || c == 0x09 || c == 0x0A || c == 0x0D || c == 0x0C || c == 0x2C
  }

  /** A name edn can read back: not empty, with neither a colon nor a delimiter in it. */
  predicate ValidName(name: seq<byte>) {
    |name| >= 1 && forall i :: 0 <= i < |name| ==> name[i] != Colon && !IsDelimiter(name[i])
  }

  /** Length of the token at the head of `b`: the bytes before the first delimiter. */
  function TokenLength(b: seq<byte>): (n: nat)
    ensures n <= |b|
    ensures forall i :: 0 <= i < n ==> !IsDelimiter(b[i])
    ensures n < |b| ==> IsDelimiter(b[n])
    decreases |b|
  {
    if |b| == 0 || IsDelimiter(b[0]) then 0 else 1 + TokenLength(b[1..])
  }

  /**
   * An edn reader's view of a keyword at the head of `b`: a colon, then the
   * name up to the next delimiter or the end. It returns the keyword and what
   * follows it, and fails on a missing colon, an empty name, or a colon
   * inside the name.
   */
  function ReadKeyword(b: seq<byte>): Option<(Keyword, seq<byte>)> {
    if |b| == 0 || b[0] != Colon then None
    else
      var n := TokenLength(b[1..]);
      var name := b[1..1 + n];
      if ValidName(name) then Some((Keyword(name), b[1 + n..])) else None
  }

  /** The token at the head of `name + rest` is `name` when `rest` is empty or starts with a delimiter. */
  lemma {:induction false} TokenLengthOf(name: seq<byte>, rest: seq<byte>)
    requires forall i :: 0 <= i < |name| ==> !IsDelimiter(name[i])
    requires |rest| == 0 || IsDelimiter(rest[0])
    ensures TokenLength(name + rest) == |name|
    decreases |name|
  {
    if |name| > 0 {
      assert (name + rest)[1..] == name[1..] + rest;
      TokenLengthOf(name[1..], rest);
    }
  }

  /**
   * Encoding a keyword with a valid name and reading it back gives the same
   * keyword, and leaves whatever follows it in the stream (nothing, or bytes
   * starting with a delimiter) unread.
   */
  lemma KeywordRoundTrip(k: Keyword, rest: seq<byte>)
    requires ValidName(k.name)
    requires |rest| == 0 || IsDelimiter(rest[0])
    ensures ReadKeyword(k.MarshalEDN().value + rest) == Some((k, rest))
  {
    var b := k.MarshalEDN().value + rest;
    assert b[1..] == k.name + rest;
    TokenLengthOf(k.name, rest);
    assert b[1..1 + |k.name|] == k.name;
    assert b[1 + |k.name|..] == rest;
  }

  /** A name with a colon in it is never read back as a keyword of that name. */
  lemma ColonNameNotRead(k: Keyword, rest: seq<byte>, i: nat)
    requires i < |k.name| && k.name[i] == Colon
    ensures ReadKeyword(k.MarshalEDN().value + rest) != Some((k, rest))
  {
    var b := k.MarshalEDN().value + rest;
    if ReadKeyword(b) == Some((k, rest)) {
      assert !ValidName(k.name);
    }
  }

  /** `Symbol`: a bare name. */
  datatype Symbol = Symbol(name: seq<byte>) {
    /** The text form is the name, undecorated. */
    function String(): (s: seq<byte>)
      ensures s == name
    {
      name
    }

    /** The encoded form is the name too, with a nil error. */
    function MarshalEDN(): (r: Result<seq<byte>>)
      ensures r == Ok(name)
    {
      Ok(name)
    }
  }
}
