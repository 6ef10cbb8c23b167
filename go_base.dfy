/**
 * The Go vocabulary the edn value types are written in: bytes, runes,
 * error values and the (value, error) pair a Go function returns.
 */
module GoBase {

  /** A Go `byte`. Go strings and byte slices are both modelled as `seq<byte>`. */
  newtype byte = x: int | 0 <= x < 0x100

  /** A Go `rune`: a 32-bit signed integer, not necessarily a valid code point. */
  newtype rune = x: int | -0x8000_0000 <= x < 0x8000_0000

  /** The error values this part of the package returns or passes along. */
  datatype Error =
    | EOF                      // io.EOF, returned by a reader that has run out of input
    | ErrUnexpected            // the package's errUnexpected
    | Other(message: string)   // an error made by the lexer or by Marshal/Unmarshal

  datatype Option<T> = None | Some(value: T)

  /** A Go `(value, error)` return: `Fail` is a non-nil error, `Ok` a nil one. */
  datatype Result<T> = Ok(value: T) | Fail(error: Error)

  predicate IsAscii(s: string) {
    forall i :: 0 <= i < |s| ==> s[i] as int < 0x80
  }

  /** The bytes of a Go string literal made of ASCII characters only. */
  function Bytes(s: string): (b: seq<byte>)
    requires IsAscii(s)
    ensures |b| == |s|
    ensures forall i :: 0 <= i < |s| ==> b[i] as int == s[i] as int
  {
    seq(|s|, i requires 0 <= i < |s| => s[i] as int as byte)
  }

  const Backslash: byte := 0x5C
  const Space: byte := 0x20
}
