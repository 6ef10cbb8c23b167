# edn value types, in Dafny

A model of `types.go` from the Go package `edn`, which reads and writes
edn data. The file defines the package's own value kinds. It has three parts:

- **The tag scanner.** `(*Tag).UnmarshalEDN` is handed the bytes of a tagged
  literal such as `#inst "1985-04-12"`. It reads them one rune at a time and
  asks a freshly reset lexer to classify each rune. It keeps two byte offsets,
  `start` and `endTag`. It stops on the first rune the lexer reports as ending
  the previous token. The name is then the bytes from `start+1` to `endTag`,
  and the rest of the buffer goes to the generic decoder for the payload.
- **The character-literal encoder.** `encodeRune` and `Rune.MarshalEDN` write
  `\c` for a rune the package does not call whitespace. A whitespace rune gets
  one of six names (`\newline`, `\space`, …) or, failing that, its ASCII-quoted
  form.
- **The text and encoded forms.** These cover `Keyword`, `Symbol`, `Vector`,
  `List`, `Tag`, `Set` and `Map`.

Modules:

- `GoBase` (go_base.dfy): bytes, runes, Go error values and `(value, error)`
  results.
- `Strings` (strings_join.dfy): `strings.Join`, and `strings.Split` on one
  byte, its inverse.
- `Lexer` (lexer.dfy): the lexer as an uninterpreted stateful classifier. It
  also holds the rune stream, which is what `bufio.Reader.ReadRune` returns:
  a list of runes with their byte lengths that tile the buffer. Around these
  it defines the lexer's trace: the state after n runes, the class of rune i,
  byte offsets, and the first rune on which the scan stops.
- `Tags` (tag.dfy): the scanning loop, specified by a closed form, and the
  `Tag` class with `String`, `MarshalEDN` and `UnmarshalEDN`.
- `Utf8` (utf8.dfy): what `bytes.Buffer.WriteRune` writes, and a strict
  one-rune decoder.
- `Runes` (runes.dfy): the `bytes.Buffer` class, `encodeRune`, the `Rune`
  kind, and an edn character-literal reader used to state the round trip.
- `Scalars` (scalars.dfy): `Keyword` and `Symbol`, and an edn keyword reader
  used to state the round trip.
- `Collections` (collections.dfy): `Vector`, `List`, `Set` and `Map` text
  forms.

Code that lives outside `types.go` appears as parameters of the operations
that call it:

- the lexer: its reset state, its `state(r)` step and its `err` field;
- `isWhitespace`;
- `strconv.QuoteRuneToASCII`, of which only a result of at least two bytes is
  assumed;
- `fmt.Sprint` and `fmt`'s `%s` verb on arbitrary values;
- the generic `Marshal` and `Unmarshal`.

Behaviour of the code that the model keeps as written:

- **The name slice `bs[start+1:endTag]` relies on two assumptions about the
  lexer, which this model does not contain.** `start` is the total length of
  every rune classified Ignore before the stop, wherever it lies. The slice
  skips exactly the `#` and nothing else only when two things hold. First,
  the lexer reports a one-byte `#` as Cont, not Ignore. Second, it reports
  no Ignore rune after the `#`. When a rune inside the name is classified
  Ignore, `start` grows by its length and the slice begins that many bytes
  too late. For example, take the classes `#` Cont, `a` Cont, TAB Ignore,
  `b` Cont, space EndPrev. Then `start` is 1 and `endTag` is 4, and the
  name is TAB followed by `b`, not `ab`. `NameFollowsSigilIff` proves when
  the slice begins right after the sigil. `TagRoundTrip` states both
  assumptions as its preconditions.
- **An empty name is accepted.** When the only Cont rune is `#`, `endTag ==
  start+1` and the name is empty. The code does not reject this.
- **A stop with no Cont rune before it makes Go panic.** Then `start+1 >
  endTag`, and the slice expression fails at run time. The model returns
  `Panicked` and assigns nothing. `TagnameDefinedIff` proves exactly when this
  happens.
- **Running out of input is the reader's `io.EOF`.** No dedicated
  "unexpected end of tag" error is made.
- **The quoted fallback of `encodeRune` adds no backslash of its own.** It
  writes the quoted form minus its first and last byte. Any backslash comes
  from `QuoteRuneToASCII` itself: for U+2003 it returns `'\u2003'`, so `\u2003` is
  written.
- **A named escape needs the whitespace predicate to agree.** If
  `isWhitespace('\b')` is false, `\b` is written raw after a backslash.
- **Invalid runes lose their value.** `WriteRune` writes U+FFFD for negative
  runes, surrogates and runes above U+10FFFF.

## Model

| member | source | states |
|---|---|---|
| `Lexer.FirstStop` | types.go:80-101 | the scan's stopping rune: every rune before it is Ignore or Cont, and it is not (or it is the end of input) |
| `Lexer.IgnoredWithinOffset` | types.go:88-100 | `start` (the ignored bytes) never exceeds `endTag` (all bytes read) |
| `Lexer.RuneWithinBuffer` | types.go:82-85 | every rune ReadRune returns lies wholly inside the buffer |
| `Lexer.IgnoredShortIff` | types.go:89-99 | fewer ignored bytes than bytes read exactly when some rune so far was not Ignore |
| `Tags.ScanSpec` | types.go:78-101 | closed form of the scan: the lexer's error, errUnexpected or EOF on failure; otherwise the stop rune with `start` = its ignored bytes and `endTag` = its offset; `start <= endTag` and the stop rune fits in the buffer |
| `Tags.ScanTagName` | types.go:75-101 | the loop (fresh lexer, Ignore advances both offsets, Cont only `endTag`, EndPrev stops without consuming, Error/End abort, EOF on a read past the end) computes exactly the closed form |
| `Tags.ScanStoppedShape` | types.go:88-103 | on a stop: the stop rune is EndPrev, all before it Ignore/Cont, `endTag` is its offset, and the payload `bs[endTag:]` begins with that whole rune |
| `Tags.ScanStopsAtEndPrev` | types.go:94-95 | an EndPrev preceded only by Ignore/Cont runes is where the scan stops, with `start` = ignored bytes and `endTag` = its offset |
| `Tags.ScanFailures` | types.go:82-97 | the three failures: the lexer's recorded error on Error, errUnexpected on End, EOF when the runes run out first |
| `Lexer.IgnoredGrowsIff` | types.go:88-91 | `start` never shrinks, and it grows over a stretch of runes exactly when one of them is Ignore |
| `Tags.NameFollowsSigilIff` | types.go:88-102 | with Ignore lead runes and a Cont `#`, `start` is at least the sigil's offset; it equals the offset, so the name slice begins right after the `#`, exactly when every rune between the sigil and the stop is Cont |
| `Tags.TagnameDefinedIff` | types.go:102 | the name slice `bs[start+1:endTag]` is in bounds iff some rune before the stop is Cont |
| `Tags.TagRoundTrip` | types.go:64-103 | for the bytes MarshalEDN writes (after any ignored lead), if the lexer takes `#` and the name as Cont and the space as EndPrev, the scan yields exactly the name and hands the decoder the space and the payload |
| `Tags.Tag.constructor` | types.go:55-58 | a tag holds the given name and payload |
| `Tags.Tag.String` | types.go:60-62 | the text is `#`, the name, one space, then the payload's `%s` text, at those positions |
| `Tags.Tag.MarshalEDN` | types.go:64-71 | fails exactly when Marshal fails, with Marshal's error; otherwise `#name ` followed by Marshal's bytes |
| `Tags.Tag.UnmarshalEDN` | types.go:73-104 | on a scan error returns it and assigns nothing; on a stop with no Cont rune panics and assigns nothing; otherwise sets the name to `bs[start+1:endTag]` and the payload to what Unmarshal makes of `bs[endTag:]` and the payload held before the call, returning Unmarshal's error |
| `Runes.Buffer.constructor` | types.go:109 | a new buffer is empty |
| `Runes.Buffer.WriteByte` | types.go:116 | appends one byte |
| `Runes.Buffer.WriteRune` | types.go:117 | appends the UTF-8 form of the rune |
| `Runes.Buffer.WriteString` | types.go:121-134 | appends the bytes given |
| `Runes.EncodeRune` | types.go:114-137 | appends exactly the character literal of the rune (raw after a backslash if not whitespace, one of six names, or the quoted form without its ends) and leaves earlier bytes untouched |
| `Runes.Rune.MarshalEDN` | types.go:108-112 | always a nil error, and the bytes are the rune's character literal |
| `Runes.CharLiteralRoundTrip` | types.go:114-131 | the literal of any non-whitespace scalar value, and of each named whitespace rune, reads back as that rune |
| `Runes.InvalidRuneReadsAsRuneError` | types.go:115-117 | a non-whitespace rune with no UTF-8 form is written, and read back, as U+FFFD |
| `Utf8.Encode` | types.go:117 | WriteRune writes one to four bytes |
| `Utf8.EncodeDecode` | types.go:117 | what WriteRune writes for a scalar value decodes back to it |
| `Utf8.DecodeEncode` | types.go:117 | every well-formed one-rune sequence is what WriteRune writes for the rune it decodes to |
| `Utf8.InvalidWrittenAsRuneError` | types.go:117 | negative runes, surrogates and runes above U+10FFFF are written as U+FFFD is |
| `Scalars.Keyword.String` | types.go:17-19 | a colon followed by the name, unescaped |
| `Scalars.Keyword.MarshalEDN` | types.go:21-23 | the encoded form equals the text form, with a nil error |
| `Scalars.KeywordRoundTrip` | types.go:15-23 | for a non-empty name with no colon and no delimiter, reading the encoded keyword up to the next delimiter gives back the same keyword and leaves what follows unread |
| `Scalars.ColonNameNotRead` | types.go:17-23 | a keyword whose name holds a colon does not read back as itself: its encoded form is not a valid keyword literal |
| `Scalars.Symbol.String` | types.go:27-29 | the name, undecorated |
| `Scalars.Symbol.MarshalEDN` | types.go:31-33 | the name, with a nil error |
| `Strings.SplitJoin` | types.go:42 | joining with one space loses nothing when no part holds a space: splitting gives the parts back |
| `Collections.SprintAll` | types.go:38-41 | the collected texts are `fmt.Sprint` of each element, in order |
| `Collections.Vector.String` | types.go:37-43 | `[`, the element texts in order joined by one space, `]`; `[]` when empty, `[x]` for one element |
| `Collections.List.String` | types.go:47-53 | `(`, the element texts in order joined by one space, `)`; `()` when empty, `(x)` for one element |
| `Collections.BracketedSplit` | types.go:42 | the element texts of a non-empty vector or list can be split back out of its text when none contains a space |
| `Collections.Set.String` | types.go:141-147 | `#{`, the texts of every key (whatever its bool) exactly once in some order, joined by one space, `}`; `#{}` when empty |
| `Collections.Map.String` | types.go:151-157 | `{`, one `key value` entry per key exactly once in some order, joined by `, `, `}`; `{}` when empty |

## Left out

- The lexer (`lexer`, `reset`, `state`, `err`) and `isWhitespace` are not part of this model. They live outside types.go and are parameters here, with no property assumed.
- The UTF-8 decoding inside `bufio.Reader.ReadRune` is not modelled. The buffer arrives split into runes of 1 to 4 bytes that tile it. The only reader error is `io.EOF`, which is all a reader over an in-memory buffer returns.
- The generic `Marshal` and `Unmarshal` are foreign calls. They are parameters that return bytes or a value, or an error. A payload decoded recursively (a tag inside a tag) happens inside `Unmarshal` and is not modelled.
- `fmt.Sprint`, `fmt.Sprintf("%s", …)` and `strconv.QuoteRuneToASCII` are opaque. Of the last, only a result of at least two bytes is assumed.
- Tags.Tag.UnmarshalEDN: when Unmarshal fails, the payload is taken to be left unchanged. Go's reflective decoder may have written part of it. On success the decoder's result is a function of the bytes and of the payload held before the call. It cannot alias other state.
- Tags.ScanSpec: the lexer's recorded error is taken to be non-nil whenever it reports Error. A nil one would make `UnmarshalEDN` return nil without assigning anything.
- Runes.CharLiteralRoundTrip: does not cover whitespace runes outside the six named ones. Their literal comes from the opaque `QuoteRuneToASCII`.
- Collections.Set.String: the order in which Go iterates a map is unspecified. The method returns the order it used as a ghost value, and only its delimiters, separators and the empty-collection result are fixed.
- Collections.Map.String: likewise for the order of the entries.
- Offsets are unbounded integers. Go's `int` cannot overflow on a buffer that fits in memory.
