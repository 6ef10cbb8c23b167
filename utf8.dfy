/**
 * UTF-8 as Go's `bytes.Buffer.WriteRune` writes it, and a strict decoder of
 * one encoded rune against which the encoder is proved.
 */
module Utf8 {
  import opened GoBase

  /** `utf8.RuneError`, U+FFFD, written in place of a rune that has no encoding. */
  const RuneError: rune := 0xFFFD

  /** A Unicode scalar value: a code point that is not a surrogate. */
  predicate ValidRune(r: rune) {
    0 <= r <= 0x10FFFF && !(0xD800 <= r <= 0xDFFF)
  }

  predicate IsContinuation(b: byte) {
    0x80 <= b < 0xC0
  }

  /**
   * The bytes `WriteRune(r)` appends: one byte below 0x80, otherwise the
   * UTF-8 form, with negative runes, surrogates and runes above U+10FFFF
   * replaced by RuneError.
   */
  function Encode(r: rune): (b: seq<byte>)
    ensures 1 <= |b| <= 4
  {
    var c := r as int;
    if 0 <= c < 0x80 then [c as byte]
    else if 0 <= c < 0x800 then [(0xC0 + c / 64) as byte, (0x80 + c % 64) as byte]
    else if !ValidRune(r) then [0xEF, 0xBF, 0xBD]
    else if c < 0x1_0000 then
      [(0xE0 + c / 64 / 64) as byte, (0x80 + c / 64 % 64) as byte, (0x80 + c % 64) as byte]
    else
      [(0xF0 + c / 64 / 64 / 64) as byte, (0x80 + c / 64 / 64 % 64) as byte,
       (0x80 + c / 64 % 64) as byte, (0x80 + c % 64) as byte]
  }

  /** The rune that `b` encodes, when `b` is exactly one well-formed, shortest UTF-8 sequence. */
  function Decode(b: seq<byte>): Option<rune> {
    if |b| == 1 && b[0] < 0x80 then Some(b[0] as int as rune)
    else if |b| == 2 && 0xC0 <= b[0] < 0xE0 && IsContinuation(b[1]) then
      var v := (b[0] as int - 0xC0) * 64 + (b[1] as int - 0x80);
      if v >= 0x80 then Some(v as rune) else None
    else if |b| == 3 && 0xE0 <= b[0] < 0xF0 && IsContinuation(b[1]) && IsContinuation(b[2]) then
      var v := ((b[0] as int - 0xE0) * 64 + (b[1] as int - 0x80)) * 64 + (b[2] as int - 0x80);
      if v >= 0x800 && !(0xD800 <= v <= 0xDFFF) then Some(v as rune) else None
    else if |b| == 4 && 0xF0 <= b[0] < 0xF8 && IsContinuation(b[1]) && IsContinuation(b[2]) && IsContinuation(b[3]) then
      var v := (((b[0] as int - 0xF0) * 64 + (b[1] as int - 0x80)) * 64 + (b[2] as int - 0x80)) * 64 + (b[3] as int - 0x80);
      if 0x1_0000 <= v <= 0x10FFFF then Some(v as rune) else None
    else None
  }

  /** Every scalar value is read back from what `WriteRune` wrote for it. */
  lemma EncodeDecode(r: rune)
    requires ValidRune(r)
    ensures Decode(Encode(r)) == Some(r)
  {
    var c := r as int;
    if c >= 0x800 {
      assert c / 64 == c / 64 / 64 * 64 + c / 64 % 64;
      if c >= 0x1_0000 {
        assert c / 64 / 64 == c / 64 / 64 / 64 * 64 + c / 64 / 64 % 64;
      }
    }
  }

  /** Every well-formed sequence is what `WriteRune` writes for the rune it decodes to. */
  lemma DecodeEncode(b: seq<byte>)
    requires Decode(b).Some?
    ensures ValidRune(Decode(b).value) && Encode(Decode(b).value) == b
  {
    var c := Decode(b).value as int;
    if |b| == 2 {
      DivMod64(c, b[0] as int - 0xC0, b[1] as int - 0x80);
    } else if |b| == 3 {
      var w := (b[0] as int - 0xE0) * 64 + (b[1] as int - 0x80);
      DivMod64(c, w, b[2] as int - 0x80);
      DivMod64(w, b[0] as int - 0xE0, b[1] as int - 0x80);
    } else if |b| == 4 {
      var u := (b[0] as int - 0xF0) * 64 + (b[1] as int - 0x80);
      var w := u * 64 + (b[2] as int - 0x80);
      DivMod64(c, w, b[3] as int - 0x80);
      DivMod64(w, u, b[2] as int - 0x80);
      DivMod64(u, b[0] as int - 0xF0, b[1] as int - 0x80);
    }
  }

  lemma DivMod64(x: int, q: int, r: int)
    requires 0 <= r < 64 && x == q * 64 + r
    ensures x / 64 == q && x % 64 == r
  {
  }

  /** Runes without an encoding are written exactly as RuneError is. */
  lemma InvalidWrittenAsRuneError(r: rune)
    requires !ValidRune(r)
    ensures Encode(r) == Encode(RuneError)
  {
  }
}
