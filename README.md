# AAMVA DL/ID transcoder, modelled in Dafny

This project models the text transcoder of a driver's-licence barcode tool.
The transcoder converts between the text payload of a PDF417 driver's-licence
barcode and a record of 29 string fields. It has three parts, all in
`services/aamvaParser.ts`, working over the record type and the default record
of `types.ts`:

- **The field dictionary.** `AAMVA_MAP` is a literal table from 29
  three-letter AAMVA element codes (`DCA`, `DCS`, `DAJ`, ...) to record
  fields. `REV_MAP` is derived from it by swapping every entry.
- **The decoder `parseAamva`.** It drops every carriage return and cuts the
  text at line feeds. Each line is searched for each code, in table order.
  When a line includes a code, the decoder takes the second piece of
  `line.split(code)` and trims it. If the result is non-empty, it is assigned
  to the code's field. Later assignments overwrite earlier ones.
- **The encoder `buildAamvaString`.** It writes a fixed header: the line `@`,
  then a constant ANSI line. Then it writes 29 element lines, each the code
  followed by the value, in a fixed order. The first element line also
  carries the `DL` subfile type. `sex` is written as `1` for `male`, `2` for
  `female`, and unchanged otherwise. `jurisdictionCode` is written as its
  first two characters, upper-cased.

The modules are:

- `JsString` (`js_string.dfy`): the JavaScript string built-ins the
  transcoder uses: `indexOf`, `includes`, `split` and `join` with a string
  separator, `trim`, `replace(/\r/g, '')`, `toUpperCase` and `substring`.
- `AamvaTypes` (`aamva_types.dfy`): the record, its 29 field names, and the
  default record.
- `AamvaDictionary` (`aamva_dictionary.dfy`): the code table, the generic
  `Object.fromEntries` and entry swap, and the proof that `REV_MAP` inverts
  `AAMVA_MAP`.
- `AamvaParser` (`aamva_parser.dfy`): the decoder. It is a functional
  specification (`ScanLine`, `ParseLines`, `Parse`) plus the imperative
  decoder (`ParseAamva`, a loop over lines around a loop over table entries,
  updating a map). The decoder is proved equal to the specification. The
  properties are proved about the specification.
- `AamvaBuilder` (`aamva_builder.dfy`): the encoder, its 29 element lines
  listed in the source's order. Where the source looks a code up with
  `REV_MAP.<field>`, the model writes `CodeOf(<Field>)`, the code the table
  pairs with the field; `RevMapLookup` proves the two equal for every field.
  The line list is proved equal to a table-driven description.
- `AamvaRoundTrip` (`aamva_roundtrip.dfy`): decoding the encoder's output
  gives back every field as it was written. This holds for every *encodable*
  record, meaning:
  - every written value is non-empty, trimmed and free of line breaks;
  - every element line holds exactly one code occurrence, its own.

  The condition is per line, not per value, because a code can straddle the
  boundary between a code and its value. For example, compliance type `C...`
  is written as `DDAC...`, which contains `DAC`, the first-name code.
- `AamvaDefaultRoundTrip` (`aamva_default.dfy`): the default record is
  encodable, so the round trip holds for it.

Where the code and its documentation disagree, the model follows the code:

- **A decoded value does not always run to the end of its line.**
  `line.split(code)[1]` stops at the next occurrence of the same code. So on
  the line `DCSAB DCS CD`, the value for `DCS` is `AB`, not `AB DCS CD`.
  `ValueForBetween` states this.
- **The default jurisdiction is written as `TE`.** The default record holds
  `jurisdictionCode: 'Texas'`, and the field is commented `e.g. TX`. The
  encoder keeps the first two characters and upper-cases them. So the default
  record is written as `DAJTE` and decodes with jurisdiction `TE`, not `TX`
  (`DefaultConversions`, `DefaultConvertedLines`).

## Model

| member | source | states |
|---|---|---|
| AamvaTypes.Field | types.ts:2-32 | The 29 field names of the record, one per member of `AamvaData`. |
| AamvaTypes.AamvaData | types.ts:2-32 | The full record: 29 string fields, with `Get` reading a field by name. |
| AamvaTypes.DefaultAamvaData | types.ts:34-64 | The default record, field by field as the source writes it. |
| AamvaTypes.DefaultDatesAreEightDigits | types.ts:38-46 | The three MMDDYYYY fields of the default record (expiration, issue and birth dates) are eight-digit strings. |
| AamvaDictionary.Table | services/aamvaParser.ts:7-37 | The entries of `AAMVA_MAP`, code and field, in the literal's order, which is also the order `Object.entries` yields them. |
| AamvaDictionary.FromEntries | services/aamvaParser.ts:39-41 | `Object.fromEntries`: later entries override earlier ones, and every entry's key is a key of the result. |
| AamvaDictionary.Swapped | services/aamvaParser.ts:40 | `entries.map(([k, v]) => [v, k])`: same length, each entry's key and value exchanged in place. |
| AamvaDictionary.AamvaMap | services/aamvaParser.ts:7-37 | `AAMVA_MAP`, the map built from the table. |
| AamvaDictionary.RevMap | services/aamvaParser.ts:39-41 | `REV_MAP`, the map built from the swapped table. |
| AamvaDictionary.CodeOf | services/aamvaParser.ts:39-41 | The code of a field, read from the table; `RevMapLookup` proves it is `REV_MAP[f]`. |
| AamvaDictionary.FromEntriesKeys | services/aamvaParser.ts:39-41 | Every key of a map built by `Object.fromEntries` comes from one of its entries. |
| AamvaDictionary.FromEntriesSize | services/aamvaParser.ts:39-41 | A map built from entries with distinct keys has exactly one key per entry. |
| AamvaDictionary.FromEntriesLookup | services/aamvaParser.ts:39-41 | With distinct keys, the built map sends each entry's key to that entry's value, whatever its position. |
| AamvaDictionary.InverseMaps | services/aamvaParser.ts:39-41 | For a table with distinct keys and distinct values, the map of the swapped entries is the exact inverse of the map of the entries. Both have one key per entry, and each undoes the other in both directions. |
| AamvaDictionary.TableDistinct | services/aamvaParser.ts:7-37 | The table has 29 entries, with 29 distinct codes and 29 distinct fields. |
| AamvaDictionary.Bijection | services/aamvaParser.ts:7-41 | `AAMVA_MAP` and `REV_MAP` each have 29 keys. Every field has a code. Looking a code up and back, or a field up and back, returns it. |
| AamvaDictionary.RevMapLookup | services/aamvaParser.ts:39-41 | Every field is a key of `REV_MAP`, and `REV_MAP[f]` is the code the table pairs with `f`. |
| AamvaDictionary.CodeOfEntry | services/aamvaParser.ts:8-36 | The code of the field in entry `i` is entry `i`'s own code. |
| AamvaDictionary.CodeLetters | services/aamvaParser.ts:8-36 | Every code of the table is three upper-case ASCII letters. |
| AamvaParser.TableFieldsDistinct | services/aamvaParser.ts:7-37 | No two table entries name the same field. |
| JsString.Includes | services/aamvaParser.ts:51 | `s.includes(key)`: `indexOf` finds the key from position 0; `IncludesIff` characterises it. |
| JsString.SplitFrom | services/aamvaParser.ts:52 | The loop of `split`: pieces cut at successive non-overlapping occurrences of the separator; one piece exactly when the separator does not occur from there on. |
| JsString.Join | services/aamvaParser.ts:96 | `pieces.join(sep)`: the pieces with the separator between neighbours; `SplitJoin` proves splitting undoes it. |
| JsString.IndexOf | services/aamvaParser.ts:51 | `indexOf` returns -1 exactly when the key does not occur from `from` on. Otherwise it returns an occurrence at or after `from` with none before it. |
| JsString.IncludesIff | services/aamvaParser.ts:51 | `includes(key)` holds exactly when the key occurs somewhere in the string. |
| JsString.Split | services/aamvaParser.ts:52 | `split` always returns at least one piece. It returns exactly one piece when the separator does not occur. |
| JsString.SplitSecondPiece | services/aamvaParser.ts:52 | The second piece of `s.split(key)` is the text from the end of the first occurrence of `key` to its next occurrence, or to the end of `s`. |
| JsString.SplitPiecesExclude | services/aamvaParser.ts:47 | No piece of a split includes the separator. |
| JsString.SplitPiecesOmit | services/aamvaParser.ts:47 | A character absent from the text is absent from every piece of its split. |
| JsString.JoinOmits | services/aamvaParser.ts:96 | A character in neither the pieces nor the separator is not in their `join`. |
| JsString.SplitJoin | services/aamvaParser.ts:96 | Splitting at a one-character separator undoes joining on it, when no piece holds that character. |
| JsString.Trim | services/aamvaParser.ts:52 | `trim` leaves neither end of the result whitespace and never lengthens the string. |
| JsString.TrimSlice | services/aamvaParser.ts:52 | `trim` returns a contiguous slice of its input, and everything cut on either side is whitespace. |
| JsString.TrimFixed | services/aamvaParser.ts:52 | `trim` leaves a string unchanged exactly when neither of its ends is whitespace. |
| JsString.TrimChars | services/aamvaParser.ts:52 | Every character of a trimmed string is a character of the original. |
| JsString.RemoveAll | services/aamvaParser.ts:47 | `replace(/c/g, '')`: the result holds no `c`, and a string without `c` is returned unchanged. |
| JsString.RemoveAllCount | services/aamvaParser.ts:47 | Every occurrence of `c` is removed and every other character is kept as often as it occurs. |
| JsString.RemoveAllChar | services/aamvaParser.ts:47 | A single character is dropped exactly when it is `c`. |
| JsString.RemoveAllConcat | services/aamvaParser.ts:47 | Removal works piece by piece: removing from `a + b` is removing from `a` followed by removing from `b`. With `RemoveAllChar` this fixes the result completely, kept characters in their original order. |
| JsString.RemoveAllIdempotent | services/aamvaParser.ts:47 | Removing a character a second time changes nothing. |
| JsString.ToUpper | services/aamvaParser.ts:83 | `toUpperCase` keeps the length and upper-cases each character in place. |
| JsString.ToUpperIdempotent | services/aamvaParser.ts:83 | Upper-casing leaves no lower-case ASCII letter, and upper-casing again changes nothing. |
| JsString.Prefix | services/aamvaParser.ts:83 | `substring(0, n)` is the prefix of the string of length `n`, or the whole string when it is shorter. |
| AamvaParser.Lines | services/aamvaParser.ts:47 | The input always yields at least one line. No line holds a line feed or a carriage return. |
| AamvaParser.ValueFor | services/aamvaParser.ts:51-53 | A line yields a value for a code only when it includes the code. The value is then non-empty and trimmed. |
| AamvaParser.ValueForBetween | services/aamvaParser.ts:51-53 | A line without the code yields nothing. A line with it yields the trimmed text between the first and the next occurrence of the code, or nothing when that text is blank. |
| AamvaParser.ValueForOmits | services/aamvaParser.ts:52 | A character absent from the line is absent from the value taken from it. |
| AamvaParser.ValueForAbsent | services/aamvaParser.ts:51 | A line where the code never occurs yields nothing for it. |
| AamvaParser.ValueForSole | services/aamvaParser.ts:51-53 | On a line where the code occurs once, the value is the rest of the line after it, when that rest is non-empty and trimmed. |
| AamvaParser.ScanLine | services/aamvaParser.ts:50-55 | The specification of one line's scan: the entries in order, each applying its code's value to its field when the line yields one. |
| AamvaParser.ParseLines | services/aamvaParser.ts:49-56 | The specification of the scan of all lines, one after the other, from the empty record. |
| AamvaParser.Parse | services/aamvaParser.ts:43-59 | The specification of the decoder: the lines of the text scanned against the table. |
| AamvaParser.ScanLineWith | services/aamvaParser.ts:50-55 | The inner loop over the table entries computes the line-scan specification: each entry in order, a found value overwriting the field. |
| AamvaParser.ParseLinesWith | services/aamvaParser.ts:49-56 | The outer loop over the lines computes the specification: each line scanned in turn, starting from the empty record. |
| AamvaParser.ParseAamva | services/aamvaParser.ts:43-59 | The decoder (strip carriage returns, cut at line feeds, scan every line) returns exactly the record the specification `Parse` defines. |
| AamvaParser.ScanLineEntry | services/aamvaParser.ts:50-54 | Scanning a line against entries with distinct fields sets each entry's field exactly as that entry's code dictates. A value overwrites the field; no value leaves it as it was. |
| AamvaParser.ScanLineMissing | services/aamvaParser.ts:50-54 | A field named by no entry is left unchanged by a line scan. |
| AamvaParser.LastSome | services/aamvaParser.ts:49-53 | It finds the last position holding a value, or returns -1 when there is none. Every later position holds none. |
| AamvaParser.LastSomeUnique | services/aamvaParser.ts:49-53 | When exactly one position holds a value, it is the last one. |
| AamvaParser.ParseLinesEntry | services/aamvaParser.ts:49-56 | Last line wins, for any entry list with distinct fields. A field is set exactly when some line yields a value for its code, and then holds the value of the last such line. A later line with a blank value does not erase it. |
| AamvaParser.ParseField | services/aamvaParser.ts:43-59 | Last line wins, for the decoder. A field is absent when no line yields a value for its code. Otherwise it holds the value from the last line that yields one. |
| AamvaParser.ParseFromLastHit | services/aamvaParser.ts:49-53 | When the last line yielding a value for a field yields `v`, the decoder returns `v` for that field. |
| AamvaParser.ParsedFieldsFound | services/aamvaParser.ts:51 | A field is decoded only when its code is included in some line. |
| AamvaParser.NoCodesNoFields | services/aamvaParser.ts:43-59 | Text in which no line includes any of the 29 codes decodes to the empty record. |
| AamvaParser.ParsedValuesClean | services/aamvaParser.ts:47-53 | Every decoded value is non-empty, has no whitespace at either end, and holds no line feed or carriage return. |
| AamvaParser.CarriageReturnsIgnored | services/aamvaParser.ts:47 | Removing all carriage returns from the input beforehand does not change the decoded record. |
| AamvaParser.CodeLength | services/aamvaParser.ts:39-41 | The code of every field is three characters long. |
| AamvaBuilder.AnsiLine | services/aamvaParser.ts:63 | The constant ANSI header line. |
| AamvaBuilder.Header | services/aamvaParser.ts:63 | The constant header: `@`, a line feed, the ANSI line. |
| AamvaBuilder.SexCode | services/aamvaParser.ts:78 | The sex as written: `male` to `1`, `female` to `2`, anything else unchanged; `SexCodeIdempotent` states its range. |
| AamvaBuilder.Emitted | services/aamvaParser.ts:66-94 | The value written for each field: the two converted fields through `SexCode` and `JurisdictionAbbrev`, every other field as it stands. |
| AamvaBuilder.DlLine | services/aamvaParser.ts:66-94 | Element line `i` as the source's list literal writes it, including the literal `DDE`, `DDF`, `DDG` and the `DL` prefix; `DlSegmentFromTable` relates it to the table. |
| AamvaBuilder.DlSegment | services/aamvaParser.ts:65-95 | The 29 element lines in the source's order. |
| AamvaBuilder.BuildAamvaString | services/aamvaParser.ts:61-98 | The encoder: header, line feed, element lines joined by line feeds; `BuildJoinsLines`, `SplitOutput` and `RoundTrip` state what it produces. |
| AamvaBuilder.JurisdictionAbbrev | services/aamvaParser.ts:83 | The written jurisdiction has two characters, or fewer when the input is shorter, each the upper-cased character at the same position of the input. |
| AamvaBuilder.JurisdictionAbbrevIdempotent | services/aamvaParser.ts:83 | Abbreviating twice is abbreviating once, and no lower-case letter remains. |
| AamvaBuilder.SexCodeIdempotent | services/aamvaParser.ts:78 | The written sex is `1`, `2` or the input unchanged, and converting it again changes nothing. |
| AamvaBuilder.DlSegmentFromTable | services/aamvaParser.ts:65-95 | There are 29 element lines. Line `i` is the code of table entry `i` followed by the written value of that entry's field, with `DL` in front of line 0. This includes the literal `DDE`, `DDF` and `DDG` lines. |
| AamvaBuilder.BuildJoinsLines | services/aamvaParser.ts:63-97 | The output is the two header lines (`@` and the ANSI line) and the 29 element lines, joined by line feeds. |
| AamvaBuilder.TableLineOmits | services/aamvaParser.ts:65-95 | A character that is not an upper-case letter and not in the written value is absent from that element line. |
| AamvaBuilder.OutputLinesOmit | services/aamvaParser.ts:63-95 | A character absent from the header and from every written value, and not an upper-case letter, is absent from every output line. |
| AamvaBuilder.SplitOutput | services/aamvaParser.ts:61-98 | When no written value holds a line feed, splitting the output at line feeds gives exactly its 31 lines: `@`, the ANSI line, then the 29 element lines. |
| AamvaRoundTrip.CodeAt | services/aamvaParser.ts:8-36 | Wherever a code of the table occurs, the line has a `D` there, and the three letters starting at it identify that table entry. |
| AamvaRoundTrip.HeaderHasNoCode | services/aamvaParser.ts:63 | Neither header line contains any of the 29 codes. |
| AamvaRoundTrip.OutputHasNoCarriageReturn | services/aamvaParser.ts:61-98 | The output holds no carriage return when no written value does. |
| AamvaRoundTrip.LinesOfOutput | services/aamvaParser.ts:43-98 | For clean values, the decoder's lines of the encoder's output are exactly the 31 lines the encoder wrote. |
| AamvaRoundTrip.OutcomeOfLine | services/aamvaParser.ts:49-97 | For an encodable record, each output line yields a value for a code only when it is that code's own element line. That line yields exactly the written value. |
| AamvaRoundTrip.LastOutcome | services/aamvaParser.ts:49-97 | Among the output lines, the last and only line yielding a value for a field is its own line, and it yields the written value. |
| AamvaRoundTrip.DecodedOutcomes | services/aamvaParser.ts:43-98 | The same, read through the decoder's own line cutting of the output text. |
| AamvaRoundTrip.RoundTripField | services/aamvaParser.ts:43-98 | Decoding the output of an encodable record yields the field with exactly the value written for it. |
| AamvaRoundTrip.RoundTrip | services/aamvaParser.ts:43-98 | For every encodable record, decoding the encoder's output recovers all 29 fields, each with the value written for it. The sex comes back as `1` or `2` and the jurisdiction abbreviated. |
| AamvaRoundTrip.EncodableWhenClear | services/aamvaParser.ts:65-95 | A record is encodable when each element line passes three checks. Its value is clean. No `D` near the code, other than the code's own, starts a code. No `D` inside the value starts a code. |
| AamvaDefaultRoundTrip.DefaultEncodable | types.ts:34-64 | The default record is encodable. Every element line it produces holds its own code once and no other. |
| AamvaDefaultRoundTrip.DefaultConversions | types.ts:47-52 | The default `male` is written as `1`, and the default `Texas` as `TE`. |
| AamvaDefaultRoundTrip.DefaultConvertedLines | types.ts:47-52 | The default record's sex line is `DBC1` and its jurisdiction line is `DAJTE`. |
| AamvaDefaultRoundTrip.DefaultFieldsTrimmed | types.ts:34-64 | Every field of the default record is non-empty and has no whitespace at either end. |
| AamvaDefaultRoundTrip.DefaultRoundTrip | types.ts:34-64 | Decoding the encoding of the default record gives back all 29 fields. They equal the defaults, except sex is `1` and jurisdiction is `TE`. |

## Left out

- Unicode: `trim` is modelled over the ASCII whitespace characters (space, tab, line feed, vertical tab, form feed, carriage return). `toUpperCase` upper-cases only ASCII `a`-`z`. JavaScript's Unicode whitespace and case tables are not modelled.
- JsString.Prefix, AamvaBuilder.JurisdictionAbbrev: strings are modelled as sequences of Unicode scalar values, not of UTF-16 code units. `substring(0, 2)` counts code units, so for a jurisdiction starting with a character outside the Basic Multilingual Plane the source keeps that one character (two code units) while the model keeps two characters; lone surrogates cannot be represented at all. For the ASCII values the record holds, the two agree.
- The ANSI header line is a constant. Its issuer number, offsets and lengths are not computed from the payload, and the model does not claim they match it.
- `split` with an empty separator is not modelled. Every separator the transcoder uses (a code or a line feed) is non-empty.
- The iteration order of `Object.entries(AAMVA_MAP)` is taken to be the literal's order. JavaScript guarantees this for non-integer string keys such as these codes.
- JsString.SplitJoin: proved for one-character separators only, which is the only case the encoder uses (`\n`).
- AamvaRoundTrip.RoundTrip: proved for encodable records only. Records in which a value holds a line break, has whitespace at an end, is empty, or creates a second code occurrence on a line (such as compliance type `C...` producing `DAC`) are outside its premise. For those, the decoder's result is still described field by field by `ParseField`.
- The user interface is not part of this model. This covers the React application shell, the generator form and its one-field updates, barcode rendering through bwip-js, the PNG download, and the html5-qrcode camera scanner with its callbacks. All of them are browser I/O or foreign library calls.
- The scanner's check that a decoded text looks like an AAMVA payload is a one-line gate in the UI. It is not part of this model.
- The record's TypeScript `Partial<AamvaData>` result is modelled as a map from field names to strings. Fields absent from the map are the fields the decoder did not set.
