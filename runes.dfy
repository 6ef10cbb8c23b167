/**
 * The character literal: `Rune.MarshalEDN` and `encodeRune` (types.go:106-137),
 * over a `bytes.Buffer` that they append to.
 *
 * `isWhitespace` (defined elsewhere in the package) and
 * `strconv.QuoteRuneToASCII` are parameters: nothing is assumed of the first,
 * and of the second only that its result has at least two bytes.
 */
module Runes {
  import opened GoBase
  import Utf8

  /** A `bytes.Buffer`: a byte slice that grows at its end. */
  class Buffer {
    var data: seq<byte>

    constructor ()
      ensures data == []
    {
      data := [];
    }

    method WriteByte(c: byte)
      modifies this
      ensures data == old(data) + [c]
    {
      data := data + [c];
    }

    /** Appends the UTF-8 form of `r`; a rune below 0x80 is written as a single byte. */
    method WriteRune(r: rune)
      modifies this
      ensures data == old(data) + Utf8.Encode(r)
    {
      if 0 <= r < 0x80 {
        data := data + [r as int as byte];
      } else {
        data := data + Utf8.Encode(r);
      }
    }

    method WriteString(s: seq<byte>)
      modifies this
      ensures data == old(data) + s
    {
      data := data + s;
    }
  }

  /** The six whitespace runes with a name of their own, and the escape written for each. */
  function NamedEscape(r: rune): Option<seq<byte>> {
    if r == 0x08 then Some(Bytes("\\backspace"))
    else if r == 0x0C then Some(Bytes("\\formfeed"))
    else if r == 0x0A then Some(Bytes("\\newline"))
    else if r == 0x0D then Some(Bytes("\\return"))
    else if r == 0x09 then Some(Bytes("\\tab"))
    else if r == 0x20 then Some(Bytes("\\space"))
    else None
  }

  /**
   * The literal `encodeRune` writes for `r`: a backslash and the rune itself
   * unless `isWhitespace(r)`; for a whitespace rune its name when it has one,
   * and otherwise the ASCII-quoted form with its two quotes cut off (no
   * backslash of its own).
   */
  function CharLiteral(r: rune, isWhitespace: rune -> bool, quote: rune -> seq<byte>): seq<byte>
    requires |quote(r)| >= 2
  {
    if !isWhitespace(r) then [Backslash] + Utf8.Encode(r)
    else if NamedEscape(r).Some? then NamedEscape(r).value
    else quote(r)[1..|quote(r)| - 1]
  }

  /** `encodeRune(buf, r)`: appends the literal for `r` and leaves what was written before untouched. */
  method EncodeRune(buf: Buffer, r: rune, isWhitespace: rune -> bool, quote: rune -> seq<byte>)
    requires |quote(r)| >= 2
    modifies buf
    ensures buf.data == old(buf.data) + CharLiteral(r, isWhitespace, quote)
    ensures buf.data[..|old(buf.data)|] == old(buf.data)
  {
    if !isWhitespace(r) {
      buf.WriteByte(Backslash);
      buf.WriteRune(r);
    } else {
      match r {
        case 0x08 => buf.WriteString(Bytes("\\backspace"));
        case 0x0C => buf.WriteString(Bytes("\\formfeed"));
        case 0x0A => buf.WriteString(Bytes("\\newline"));
        case 0x0D => buf.WriteString(Bytes("\\return"));
        case 0x09 => buf.WriteString(Bytes("\\tab"));
        case 0x20 => buf.WriteString(Bytes("\\space"));
        case _ =>
          var val := quote(r);
          buf.WriteString(val[1..|val| - 1]);
      }
    }
  }

  /** `Rune`: a rune that encodes as a character literal. */
  datatype Rune = Rune(code: rune) {
    /** Writes the literal into a fresh buffer and returns its bytes with a nil error. */
    method MarshalEDN(isWhitespace: rune -> bool, quote: rune -> seq<byte>) returns (res: Result<seq<byte>>)
      requires |quote(code)| >= 2
      ensures res.Ok?
      ensures res.value == CharLiteral(code, isWhitespace, quote)
    {
      var buf := new Buffer();
      EncodeRune(buf, code, isWhitespace, quote);
      return Ok(buf.data);
    }
  }

  /**
   * An edn reader's view of a character literal: a backslash followed by a
   * character name or by exactly one UTF-8 encoded rune.
   */
  function ReadCharLiteral(b: seq<byte>): Option<rune> {
    if |b| < 2 || b[0] != Backslash then None
    else if b == Bytes("\\backspace") then Some(0x08)
    else if b == Bytes("\\formfeed") then Some(0x0C)
    else if b == Bytes("\\newline") then Some(0x0A)
    else if b == Bytes("\\return") then Some(0x0D)
    else if b == Bytes("\\tab") then Some(0x09)
    else if b == Bytes("\\space") then Some(0x20)
    else Utf8.Decode(b[1..])
  }

  /**
   * The literal of every scalar value that is not whitespace, and of each of
   * the six named whitespace runes that the predicate calls whitespace,
   * reads back as that rune.
   */
  lemma CharLiteralRoundTrip(r: rune, isWhitespace: rune -> bool, quote: rune -> seq<byte>)
    requires |quote(r)| >= 2
    requires Utf8.ValidRune(r)
    requires !isWhitespace(r) || NamedEscape(r).Some?
    ensures ReadCharLiteral(CharLiteral(r, isWhitespace, quote)) == Some(r)
  {
    var b := CharLiteral(r, isWhitespace, quote);
    if !isWhitespace(r) {
      var e := Utf8.Encode(r);
      assert b[1..] == e;
      if |e| == 3 {
        assert e[0] >= 0xE0;
        assert Bytes("\\tab")[1] == 't' as int as byte;
      }
      Utf8.EncodeDecode(r);
    }
  }

  /**
   * A rune that is not whitespace and has no UTF-8 form is written as the
   * literal of RuneError, so it reads back as U+FFFD.
   */
  lemma InvalidRuneReadsAsRuneError(r: rune, isWhitespace: rune -> bool, quote: rune -> seq<byte>)
    requires |quote(r)| >= 2
    requires !Utf8.ValidRune(r) && !isWhitespace(r)
    ensures ReadCharLiteral(CharLiteral(r, isWhitespace, quote)) == Some(Utf8.RuneError)
  {
    Utf8.InvalidWrittenAsRuneError(r);
    var b := CharLiteral(r, isWhitespace, quote);
    assert b[1..] == Utf8.Encode(Utf8.RuneError);
    assert Bytes("\\tab")[1] == 't' as int as byte;
    Utf8.EncodeDecode(Utf8.RuneError);
  }
}
