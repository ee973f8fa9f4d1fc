# GerberSockets KiCad footprint generator: the footprint builder and the archive loop

This project is a Dafny model of the two functions behind the generator page:

- `generateSingleFootprint` turns one net name into a KiCad footprint. Every code unit of the name becomes a zero-length `fp_line` mark. The mark's stroke width encodes the unit's position and its value: `"0." + position + code + "01"`. The marks sit between a fixed first part and a fixed last part:
  - The first part is a header titled with the name, five property blocks and `(attr smd)`.
  - The last part is an `fp_text` and one pad.
- `generateAndDownloadZip` handles the whole list of names:
  - It raises an alert when every name is blank.
  - Otherwise it trims every name and skips the empty ones.
  - It builds a footprint for each remaining name, shows the footprints in input order, and writes each one to `<trimmed name>.kicad_mod` in the zip archive.

Modules, in dependency order:

- `Wrappers`: `Option` and `Result`.
- `Text`: strings are sequences of UTF-16 code units, the values `charCodeAt` returns. `Trim` follows `String.prototype.trim` over the ECMAScript white-space and line-terminator set.
- `Digits`: `Number.prototype.toString` on naturals, and its inverse.
- `Ids`: each `uuidv4()` call becomes a draw from a counter threaded through the run.
- `Encoder`: the width tokens, and a decoder that reads a name back from them.
- `Builder`: the footprint as a sequence of elements, in the order the source draws identifiers and lays out elements.
- `Template`: the text of a footprint. The template's fixed pieces form a record; `KiCad` holds the pieces as the source writes them. Every lemma holds for any pieces, so it holds for `KiCad`.
- `Archive`: the selection loop, the archive as a map with last-write-wins updates, and the run's outcome.
- `Examples`: the run on particular name lists.

## Model

| member | source | states |
|---|---|---|
| Text.Trim | src/App.tsx:169 | the trimmed name has no white space at either end, and is empty exactly when the whole name is white space |
| Text.TrimKeepsInfix | src/App.tsx:169 | trimming removes only a blank prefix and a blank suffix; the result is the infix of the name that starts at the first code unit that is not white space |
| Text.TrimTidy | src/App.tsx:169 | a name with no white space at either end trims to itself |
| Text.TrimIdempotent | src/App.tsx:169 | trimming a trimmed name changes nothing |
| Digits.ToDecimal | src/App.tsx:28-29 | `toString` of a position or code is a canonical numeral: digits only, no leading zero, at least one digit; it reads back as the number; it has one digit exactly when the number is below ten |
| Digits.ValueThenDecimal | src/App.tsx:28-29 | every canonical numeral is the `toString` of its value, so numerals and naturals correspond one to one |
| Encoder.EncodeFrom | src/App.tsx:24-44 | with the counter starting at `offset` and stepping by one, the k-th token is built from position `offset + k` and the k-th code unit, one token per unit |
| Encoder.Encode | src/App.tsx:24-44 | the counter starts at 0, so the k-th token carries position k and the k-th code unit; positions run over exactly 0 to L-1 |
| Encoder.WidthToken | src/App.tsx:42 | the token grammar: "0.", then digits only, ending in "01", at least six units; `Encoder.DecodeSlot` and `Encoder.DecodeSlotToken` tie the digits to the position and the code unit |
| Encoder.DecodeSlot | src/App.tsx:42 | reading a token at a known position is sound: whatever it returns is the code unit whose token at that position is the input |
| Encoder.DecodeSlotToken | src/App.tsx:42 | the token of any slot, at any position, reads back as that slot's code unit |
| Encoder.DecodeToken | src/App.tsx:42 | a reader that does not know the position takes one digit for it; whatever it accepts is exactly the width token of the position and code it returns |
| Encoder.DecodeWidthToken | src/App.tsx:42 | a width token with a one-digit position reads back as its position and code |
| Encoder.DecodeLabel | src/App.tsx:27-44 | whatever name is read back from a list of widths encodes to exactly those widths |
| Encoder.DecodeEncode | src/App.tsx:27-44 | decoding the tokens of any name, from any starting position, gives the name back, whatever its length |
| Encoder.RecoverLabel | src/App.tsx:27-44 | the marks' widths in document order determine the name: reading them back gives a name exactly when they are that name's encoding |
| Encoder.EncodeInjective | src/App.tsx:27-44 | two names with the same tokens are the same name |
| Encoder.TokenFixesSlot | src/App.tsx:42 | below position ten, a single token fixes its position and code unit without knowing where it stands |
| Encoder.TokensCollide | src/App.tsx:42 | from position ten on, a single token no longer fixes its slot: 'A' at position 11 and U+00A5 at position 1 both give "0.116501" |
| Ids.Fresh | src/App.tsx:54 | each draw returns an identifier at or above the counter and advances the counter past it by one |
| Ids.DistinctJoin | src/App.tsx:54 | identifiers drawn from disjoint stretches of the counter are pairwise distinct when put together |
| Builder.Lines | src/App.tsx:45-56 | one `fp_line` per token, in token order; mark k has width token k and the k-th identifier drawn |
| Builder.DrawProperties | src/App.tsx:58-128 | the five property blocks in document order, Reference, Value, Footprint, Datasheet and Description, with five consecutive fresh identifiers |
| Builder.Finish | src/App.tsx:58-149 | after the marks, the template draws seven identifiers; the document is nine elements longer than the marks and opens with the header titled with the name; `Builder.FinishParts` gives its three parts and their identifiers |
| Builder.Build | src/App.tsx:23-154 | building a footprint advances the identifier source by exactly the name's length plus seven |
| Builder.BuildShape | src/App.tsx:151-153 | every built document has the fixed layout: the header titled with the name, five properties in fixed order, `(attr smd)`, only `fp_line` marks, then `fp_text` and the pad; it has nine elements more than the name has code units |
| Builder.BuildWidths | src/App.tsx:27-56 | the `fp_line` widths, in document order, are the name's width tokens in the name's order |
| Builder.BuildEncodes | src/App.tsx:23-154 | the built document has the fixed layout, the name as title, and the name's tokens as its widths |
| Builder.BuildCounts | src/App.tsx:58-153 | a built document has L `fp_line` marks, one header, five properties, one `(attr smd)`, one `fp_text` and one pad, whatever the name |
| Builder.WellFormedCounts | src/App.tsx:151-153 | any document with the fixed layout has one header, five properties, one `(attr smd)`, one `fp_text` and one pad; every other element is a mark |
| Builder.BuildIds | src/App.tsx:54-147 | a footprint holds exactly L + 7 identifiers, all different, all drawn between the source states before and after the build |
| Template.ElementText | src/App.tsx:45-55 | the text of one element: a header shows the opening piece followed by the title, and an `fp_line` shows its width right after the piece that opens it |
| Template.RenderWith | src/App.tsx:151-153 | the returned text always ends with the footprint's closing parenthesis; `Template.RenderFrame` gives the opening and `Template.TextsAppend` the joined marks |
| Template.SingleFootprint | src/App.tsx:23-154 | the returned text is the rendering of a document that has the fixed layout, the name as title and the name's tokens as its widths |
| Template.TextsAppend | src/App.tsx:152 | `join("")` of the marks' texts: the text of two runs of elements is the concatenation of their texts |
| Template.RenderFrame | src/App.tsx:151-153 | the text of a well-formed document starts with the opening piece and the document's title, and ends with the closing piece |
| Template.FootprintFrame | src/App.tsx:58-153 | the footprint text for a name starts with `(footprint "` and the name, and ends with the closing parenthesis |
| Archive.Eligible | src/App.tsx:168-171 | the trimmed non-empty names the loop builds footprints for, never more than the names given; `Archive.EligibleSingle` and `Archive.EligibleAppend` pin it down as the in-order filter, duplicates included |
| Archive.EligibleSingle | src/App.tsx:169-171 | one name contributes its trim when that is not empty, and nothing otherwise |
| Archive.EligibleAppend | src/App.tsx:168-171 | the selection goes name by name: the eligible names of a concatenation are those of the first part followed by those of the second, so input order and repeated names are kept |
| Archive.EligibleTidy | src/App.tsx:169-170 | every name a footprint is built for is non-empty and trimmed |
| Archive.EligibleMembers | src/App.tsx:168-171 | a name gets a footprint exactly when it is the non-empty trim of some input name |
| Archive.EligibleEmpty | src/App.tsx:159 | no footprint is built exactly when every input name is blank |
| Archive.AnyNamedEligible | src/App.tsx:159 | the guard's "some name is non-blank after trim" holds exactly when some name is eligible for a footprint |
| Archive.AddAll | src/App.tsx:175 | after the `zip.file` calls, the archive holds the paths it held before plus every path written |
| Archive.AddAllLast | src/App.tsx:175 | the content at a path is that of the last `zip.file` call with that path |
| Archive.AddAllKeeps | src/App.tsx:175 | a path no call writes keeps its content |
| Archive.BuildAll | src/App.tsx:168-173 | one document per eligible name, and the identifier source never moves backwards |
| Archive.Process | src/App.tsx:168-177 | the loop builds as many documents as there are eligible names |
| Archive.FootprintTexts | src/App.tsx:171-172 | the footprint texts pushed to `newFootprints`, one per document, in order |
| Archive.BuildAllEncodes | src/App.tsx:168-172 | the k-th document of the loop is the footprint of the k-th eligible name |
| Archive.BuildAllIds | src/App.tsx:168-172 | no identifier is used twice in a run, within one footprint or across footprints, and all come from the stretch the run drew |
| Archive.Entries | src/App.tsx:175 | the k-th `zip.file` call has the path `<k-th eligible name>.kicad_mod` and the k-th footprint text, in input order |
| Archive.EntriesPaths | src/App.tsx:175 | the paths written are exactly the eligible names with the extension |
| Archive.GenerateWith | src/App.tsx:157-177 | the run goes ahead exactly when some name is eligible, stops otherwise with the no-net-name alert, and shows one footprint per eligible name; `Archive.GenerateAborts`, `Archive.GenerateShows`, `Archive.GenerateFiles` and `Archive.GenerateLastWins` give the rest |
| Archive.GenerateAborts | src/App.tsx:159-162 | the run stops with the alert exactly when every name is blank after trimming |
| Archive.GenerateCount | src/App.tsx:167-172 | a run that goes ahead shows one footprint per eligible name, and at least one |
| Archive.GenerateShows | src/App.tsx:171-172 | the footprints shown are, in input order, the texts of the footprints of the trimmed non-blank names |
| Archive.GenerateFiles | src/App.tsx:175 | the archive's file names are exactly the eligible names with `.kicad_mod` appended |
| Archive.GenerateLastWins | src/App.tsx:172-175 | the archive file for a name holds the footprint of that name's last occurrence; the shown list keeps every occurrence |
| Examples.BlankNamesAbort | src/App.tsx:159-162 | `["", "  "]` stops with the alert |
| Examples.OneNameProceeds | src/App.tsx:159-177 | `["", "A"]` goes ahead with one footprint and the single file `A.kicad_mod` |
| Examples.CollisionKeepsLater | src/App.tsx:168-177 | `["A ", "A"]` shows two footprints, but the archive holds only `A.kicad_mod`, with the second footprint |

## Left out

- The React state and handlers (`useState`, `handleNetNameChange`, `addNetNameField`) and the page's markup: these are interface plumbing with no logic of the core.
- `uuidv4`: a random call. Each call is a draw from a counter, and an identifier is written as the counter's decimal numeral in the `(uuid "...")` slot. Distinctness is what the model proves; the format of a version-4 UUID is not modelled.
- The alert's wording, `setFootprints`, `zip.generateAsync` and `saveAs`: display, asynchronous library calls and file download. A run's outcome is the alert, or the archive's map of paths to contents together with the list of footprints shown.
- Archive.GenerateWith: it builds every footprint first and then applies the `zip.file` calls in the same order. The loop reads nothing back from the archive, so the final map is the same as with the calls interleaved.
- Archive.GenerateWith: does not model JSZip's compression or file metadata, only the map that `zip.file` fills.
- The input field's `maxLength` of ten is not enforced by the functions modelled. The ordered widths determine the name at any length (`Encoder.RecoverLabel`). Within the bound, each token on its own also fixes its slot (`Encoder.TokenFixesSlot`); beyond it, a token alone may not (`Encoder.TokensCollide`).
- A name containing `"` or a newline is interpolated into the template unescaped, in the model as in the source. Nothing is proved about whether such a text still parses as KiCad.
- Template.RenderWith: for a document of fewer than nine elements, it writes the elements as one part. No built document is that short.
- Text.Lit maps characters above U+FFFF to U+FFFD. Every fixed text of the template is ASCII, so this never applies.
- Template.RenderFrame: states only how the text opens and closes. The layout between is fixed by the definition, and its indentation is presentation, so nothing further is proved about it.
