# gemini-browser core in Dafny

This project models the pure protocol and markup core of the gemini-browser
web gateway (`src/main.rs`). The gateway fetches a Gemini page on behalf of a
web browser and renders it as HTML. The model has four parts, each in its own
module:

- `StatusCatalog`: the 18 two-digit status codes of the Gemini protocol
  specification (v0.16.1, section 3.2), with `from_u8` and `to_str`.
- `Response`: `decode_response`. It splits a raw response buffer into the
  status, the meta text and the body, following the
  `<STATUS><SPACE><META><CR><LF>` header framing of section 3.1. The scan for
  the first CR LF is an imperative method, `DecodeResponse`. It is proved
  equal to a specification function, `Decode`. The decoder's three panics
  become the `DecodeError` results `TooShort`, `UnknownStatus` and
  `MissingCrlf`.
- `LinkLineDecoder`: `decode_link_line`. The index-tracking loop is the method
  `DecodeLinkLine`, proved equal to the specification `SplitLink`.
- `Gemtext` (with `Html` and `GemtextProperties`): the text/gemini to HTML
  transpiler `parse_document_to_gems`. The state machine over `GeminiGem` is
  written two ways:
  - as the specification functions `LineStep` (one line) and `Run` (a
    sequence of lines);
  - as the methods `RenderLine` and `ParseDocumentToGems`, which append to
    the output string the way the source does. The `while let` heading
    counter is `ScanHeading`.

  `Html` specifies `html_escape::encode_text`, which replaces `&`, `<` and
  `>` with entities, and proves that it has an inverse.

Text is modelled as sequences of ASCII characters. The source mixes
character indices from `enumerate()` with byte slicing, and the two agree
only on ASCII. Foreign functions are modelled as follows:
- `Url::parse` with its scheme check is the `urlScheme` field of `Origin`. It
  is a parameter that returns the scheme of a successful parse, or `None`.
- `String::from_utf8_lossy` is `Lossy`, which works byte by byte.
- The `request` host argument is `Origin.host`.

In these places the model keeps behaviour of the code that a reader may not
expect:
- A link label loses its last character (`=> https://example.com Example` is
  labelled `Exampl`).
- Heading, list and quote text keeps the space after the marker.
- `encode_text` leaves quotes alone.
- `=>` without a following space emits no link, but it still closes a list
  and sets the mode to `LinkLine`.
- A paragraph inside a list emits `</ul>` but leaves the mode at `ListItem`.
  A later `* ` line therefore opens no new `<ul>`.
- Nothing is closed at the end of the document.

## Model

| member | source | states |
|---|---|---|
| StatusCatalog.Code | src/main.rs:124-143 | every variant's discriminant is one of the 18 known codes, between 10 and 62 |
| StatusCatalog.FromU8 | src/main.rs:169-191 | a byte maps to a status exactly when it is one of the 18 known codes, and then to the variant whose discriminant it is |
| StatusCatalog.FromU8OfCode | src/main.rs:169-191 | `from_u8` of each variant's discriminant returns that variant |
| StatusCatalog.CodeInjective | src/main.rs:124-143 | no two variants share a code |
| StatusCatalog.LabelsDistinct | src/main.rs:146-167 | `to_str` gives every variant its own fixed label |
| StatusCatalog.ToStr | src/main.rs:146-167 | no contract of its own; the labels are characterised by LabelsDistinct |
| Response.WrapU8 | src/main.rs:246 | `u8` wrap-around leaves values below 256 unchanged |
| Response.StatusValueAsWritten | src/main.rs:246 | the status value computed in unchecked `u8` arithmetic is the two-digit value when both bytes are digits |
| Response.NonDigitStatusAccepted | src/main.rs:244-247 | the unchecked arithmetic reads the non-digit status line `1:` as 20, a success |
| Response.DecodeStatus | src/main.rs:244-247 | a status decodes exactly when both bytes are digits and their value is a known code, to the variant with that code; non-digits and unknown codes are distinct errors |
| Response.DecodeStatusAgreesOnDigits | src/main.rs:244-247 | on digit bytes the checked decoding agrees with the code as written |
| Response.FirstCrlf | src/main.rs:254-259 | the result is the first CR LF at or after the start, or none when there is no CR LF there |
| Response.MetaStart | src/main.rs:249-253 | the meta text starts at 3 exactly when byte 2 is a space, otherwise at 2 |
| Response.Decode | src/main.rs:239-270 | a decoded response holds at most the buffer minus the two status bytes and the CR LF; characterised fully by DecodeResponse, DecodeFailures, DecodeFraming and DecodeEncode |
| Response.Lossy | src/main.rs:265-266 | lossy decoding keeps length, maps ASCII bytes to themselves and other bytes to U+FFFD |
| Response.DecodeResponse | src/main.rs:239-270 | the scanning decoder returns exactly the specified decoding, errors included |
| Response.DecodeFailures | src/main.rs:240-263 | decoding fails with `TooShort` iff fewer than 4 bytes, with `NonDigitStatus` iff a status byte is not a digit, with `UnknownStatus` iff the digits form no known code, with `MissingCrlf` iff there is no CR LF at or after the meta start |
| Response.DecodeFraming | src/main.rs:249-267 | a decoded buffer starts with two digits naming the status, the meta text runs from the meta start to the first CR LF, and the body is every byte after it |
| Response.LossyAscii | src/main.rs:265-266 | lossy decoding of ASCII bytes gives back the string |
| Response.EncodedCrlf | src/main.rs:254-259 | in an encoded response the first CR LF is the one that ends the meta text |
| Response.DecodeEncode | src/main.rs:239-270 | a response encoded as code, space, ASCII meta without CR LF, CR LF and body decodes to that status, meta and body |
| Html.EscapeChar | src/main.rs:324 | an escaped character is never `<` or `>`, and any character other than `&`, `<`, `>` is kept |
| Html.EncodeText | src/main.rs:324 | escaped text is at least as long as the input and holds no `<` or `>` |
| Html.DecodeEscapeChar | src/main.rs:324 | decoding the entities undoes one escaped character |
| Html.DecodeEncodeText | src/main.rs:324 | decoding the entities of escaped text gives the text back |
| Html.EncodeTextAppend | src/main.rs:324 | escaping distributes over concatenation |
| Html.EncodeTextPlain | src/main.rs:324 | text without `&`, `<`, `>` is unchanged by escaping |
| LinkLineDecoder.FirstNonWs | src/main.rs:428-436 | the index of the first non-whitespace character from a position, or the length |
| LinkLineDecoder.FirstWs | src/main.rs:438-440 | the index of the first whitespace character from a position, or the length |
| LinkLineDecoder.IsWhitespace | src/main.rs:429-441 | no contract; the Unicode White_Space set that `char::is_whitespace` tests, used by FirstNonWs and FirstWs |
| LinkLineDecoder.SplitLink | src/main.rs:423-452 | the target is never empty and the label is shorter than the input; characterised by DecodeLinkLine, TargetIsFirstWord and LabelDropsLastChar |
| LinkLineDecoder.DecodeLinkLine | src/main.rs:423-453 | the index-tracking loop yields exactly the specified target and label |
| LinkLineDecoder.TargetIsFirstWord | src/main.rs:423-450 | when the input holds a word, the target is its first maximal run of non-whitespace characters, preceded only by whitespace |
| LinkLineDecoder.LabelDropsLastChar | src/main.rs:441-451 | the label is a suffix of the input minus its last character, and starts on a non-whitespace character when a word follows the target |
| LinkLineDecoder.SingleWordLabel | src/main.rs:447-451 | with no label word, the label is the whole input minus its last character, leading space kept |
| LinkLineDecoder.TwoWordLabel | src/main.rs:423-452 | for ` target label` the target is the first word and the label the second minus its last character |
| LinkLineDecoder.FirstWsAfterWord | src/main.rs:438-440 | a visible word followed by whitespace or the end ends the target |
| LinkLineDecoder.SplitLinkExampleWeb | src/main.rs:423-452 | ` https://example.com Example` splits into the URL and the label `Exampl` |
| LinkLineDecoder.SplitLinkExamplePath | src/main.rs:447-451 | ` /foo.gmi` splits into the path and the label ` /foo.gm` |
| Gemtext.IndexOf | src/main.rs:317-323 | the first index of a character from a position, or none |
| Gemtext.HeadingLevel | src/main.rs:315-322 | a heading level is between 1 and 6 |
| Gemtext.HeadingHtml | src/main.rs:315-341 | a heading line emits nothing exactly when it has no space after its first character |
| Gemtext.ScanHeading | src/main.rs:315-341 | the counter finds the first space after the leading `#` and computes the level as 1 plus the further `#`s before it, capped at 6 |
| Gemtext.Href | src/main.rs:354-378 | http and https targets are kept; any other target goes to `?search=` followed by the target, resolved against the host (with a `/` unless the target starts with one) when it does not parse |
| Gemtext.LinkHtml | src/main.rs:351-379 | the link is an anchor: it starts with `<a href="` and ends with `</a><br>` |
| Gemtext.LinkLineHtml | src/main.rs:344-381 | a `=>` line emits a link exactly when a space follows the marker |
| Gemtext.MarkupStep | src/main.rs:308-417 | a line outside a preformatted block never enters preformatted mode |
| Gemtext.LineStep | src/main.rs:287-418 | the mode after a line is `PreformatToggle` exactly when a fence opens a block, and inside a block a non-fence line is copied verbatim |
| Gemtext.RenderHeading | src/main.rs:310-342 | the heading branch emits exactly the specified heading |
| Gemtext.RenderLink | src/main.rs:344-382 | the link branch emits exactly the specified link |
| Gemtext.RenderLine | src/main.rs:287-418 | the loop body (fences, then the dispatch on the first character calling RenderHeading and RenderLink) gives the specified mode and output for every line |
| Gemtext.Feed | src/main.rs:287-418 | one line of the loop only appends to the output |
| Gemtext.Run | src/main.rs:287-418 | feeding any lines only appends to the output |
| Gemtext.ParseDocumentToGems | src/main.rs:282-421 | the transpiler's output is the HTML of feeding every line in turn from `Text` mode, with nothing closed at the end |
| GemtextProperties.RunAppend | src/main.rs:287 | feeding two runs of lines in turn is feeding their concatenation |
| GemtextProperties.RunCons | src/main.rs:287 | feeding one line then the rest is feeding all of them |
| GemtextProperties.PreformattedVerbatim | src/main.rs:290-299 | inside a block, lines without a fence are appended verbatim with no separator and the block stays open |
| GemtextProperties.PreformattedBlock | src/main.rs:290-306 | a fenced block emits the `<pre>` tag without closing a list, the body verbatim, then `</pre>`, and returns to `Text` mode |
| GemtextProperties.FeedItem | src/main.rs:384-394 | a `* ` line emits `<ul>` only when no list is open, then its escaped item, and sets the mode to `ListItem` |
| GemtextProperties.ListGrouping | src/main.rs:384-394 | consecutive `* ` lines form one list with a single `<ul>`, one `<li>` per line, and the list stays open |
| GemtextProperties.FeedParagraph | src/main.rs:412-417 | a paragraph line closes an open list but keeps the mode |
| GemtextProperties.ParagraphInList | src/main.rs:412-417 | a paragraph line inside an open list emits `</ul>` and the paragraph, and the mode stays `ListItem` |
| GemtextProperties.ListThenParagraph | src/main.rs:384-417 | a list then a paragraph emits `<ul>`, the items, `</ul>` and the paragraph, with the mode still `ListItem` |
| GemtextProperties.OrphanItemAfterParagraph | src/main.rs:384-417 | a `* ` line after that paragraph emits its `<li>` with no new `<ul>` |
| GemtextProperties.NoFenceNeverPreformatted | src/main.rs:301-305 | a document without fences never enters preformatted mode |
| GemtextProperties.CountHashes | src/main.rs:317-322 | a run of `n` hashes counts `n` |
| GemtextProperties.StepHeading | src/main.rs:310-314 | a heading line closes an open list and sets the mode to `Heading` |
| GemtextProperties.SpaceAfterHashes | src/main.rs:317-324 | in `n` hashes then a space, the first space is at index `n` |
| GemtextProperties.LevelOfHashes | src/main.rs:315-324 | `n` hashes give level `n` capped at 6, and the text starts at the space |
| GemtextProperties.HeadingHtmlOfHashes | src/main.rs:315-341 | `n` hashes and a space give `<hN>` with the escaped text from the space on, N capped at 6 |
| GemtextProperties.HeadingOfHashes | src/main.rs:310-342 | the same heading in the state machine, after closing an open list |
| GemtextProperties.HeadingWithoutSpace | src/main.rs:310-342 | a heading line with no space emits nothing but the closing of an open list |
| GemtextProperties.HeadingOfPlainWord | src/main.rs:315-341 | a plain-word heading keeps the word and its leading space, and seven or more hashes give level 6 |
| GemtextProperties.ParagraphEscaped | src/main.rs:417 | a paragraph line reaches the output only escaped, with nothing lost |
| GemtextProperties.TagEscaped | src/main.rs:417 | a tag such as `<script>` in a text line is emitted as `&lt;script&gt;` |
| GemtextProperties.EncodeTag | src/main.rs:417 | escaping `<tag>` gives `&lt;tag&gt;` |
| GemtextProperties.StepLink | src/main.rs:344-350 | a `=>` line closes an open list and sets the mode to `LinkLine` |
| GemtextProperties.LinkHtmlOfWords | src/main.rs:351-379 | `=> target label` with plain words emits an anchor to the rewritten target, the label minus its last character, and `<br>` |
| GemtextProperties.LinkLineOfWords | src/main.rs:344-382 | the same link in the state machine, after closing an open list |
| GemtextProperties.LinkExampleWeb | src/main.rs:354-359 | `=> https://example.com Example` renders as a direct link labelled `Exampl` |
| GemtextProperties.LinkExamplePath | src/main.rs:366-371 | `=> /foo.gmi Foo` with an unparseable target links to `?search=` + host + `/foo.gmi`, labelled `Fo` |
| GemtextProperties.LinkWithoutSpace | src/main.rs:344-381 | `=>` without a following space closes an open list and sets the mode but emits no link |
| GemtextProperties.StepQuote | src/main.rs:396-407 | a `> ` line closes an open list and emits its escaped quotation |
| GemtextProperties.LeavingList | src/main.rs:311-313 | inside a list, any line other than a fence or a list line emits nothing or starts with `</ul>` |
| GemtextProperties.IncompleteMarkerSilent | src/main.rs:344-407 | `*`, `>` or `=` without the character it needs next emits nothing and keeps the mode |

## Left out

- `main` and `bro` (the actix HTTP server, static files and template rendering) are I/O plumbing and are not part of this model.
- `make_gemini_request` (TCP/TLS through native_tls and tokio, with certificate validation disabled) is network I/O and is not part of this model.
- `handle_request` is a network loop and is not part of this model. It has three defects that the model does not capture:
  - the `Input` branch retries without counting a redirect, so the loop need not end;
  - redirects still connect to the original authority;
  - the 15-hop exit returns "ERROR: Unknown ;(".
- The `println!` debug output has no bearing on results and is left out.
- The document is given as a sequence of lines. The splitting done by `str::lines()` (which strips `\n` and `\r\n`) is not modelled.
- `Url::parse` is a parameter, so URL syntax itself is not modelled. Only the scheme of a successful parse, or its failure, reaches the model.
- Response.Lossy: decodes byte by byte, so a multi-byte UTF-8 sequence in the meta text becomes one U+FFFD per byte instead of its character.
- Non-ASCII text is not modelled. Under it, the source's character indices and byte slices disagree, and slicing can panic.
- Response.StatusValueAsWritten: models the release-build wrap-around of all three `u8` operations: the subtraction, the multiplication and the addition. A debug build instead panics when any of them leaves 0..255, for example on a status byte below `0`, or on `Z0`, where `(0x5A - 0x30) * 10` is 420.
- Response.Decode: the status bytes are checked to be digits. This follows the corrected decoding given under Findings rather than the unchecked arithmetic.
- `to_str` labels are stated only as distinct per variant. No lemma restates each of the 18 strings.

## Findings

| source | as written | input that shows it | evidently intended | confidence | as-written member | corrected member |
|---|---|---|---|---|---|---|
| src/main.rs:246 | the status value is `(b0 - 0x30) * 10 + (b1 - 0x30)` in `u8` arithmetic, with no check that the two bytes are digits | the response header `1: meta\r\n` decodes to status 20 (Success), since `:` is 0x3A | reject a header whose first two bytes are not ASCII digits | not executed | Response.NonDigitStatusAccepted | Response.DecodeStatus |
