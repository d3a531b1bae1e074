# COMTRADE parser model

This project models in Dafny the decoding pipeline of `src/parser.js`, a JavaScript reader for COMTRADE disturbance recordings (IEEE Std C37.111 / IEC 60255-24). It covers four things:

- The configuration file (`.cfg`) is read line by line. The reader takes the identity line, the channel counts, one line per analog and status channel, the frequency, the sampling rate, the two time stamps, the file type and the time stamp multiplier. `Configuration.SanityCheck` runs last.
- The analog and status channel lines are read by comma position. Each has a sanity check for fields that are missing.
- The binary data file (`.dat`) is cut into records of `sample_size` bytes. Each record is decoded as a `Sample`:
  - a little-endian u32 sample number;
  - a u32 time stamp, where `0xFFFFFFFF` means no time stamp;
  - one signed 16-bit word per analog channel, scaled by the channel's `a` and `b`;
  - 16-bit status words, unpacked least significant bit first.
- The decoded values are regrouped per channel by `getAnalogValue`, `getStatusValue` and `getPrettyData`.

Every exception the JavaScript can throw is a `Failure` of a `Result`. These are the two sanity checks, a `TypeError` on an undefined line or field, and a `RangeError` on a buffer read outside the buffer. The objects are built once by their constructors and never changed afterwards, so they are datatypes. Each loop the source runs is a method with loop invariants, proved equal to a specification function:

- the `lineIndex` walk of `Configuration.Read`;
- the analog and status loops of `Sample.Read`;
- the stride loop of `Data.Read`;
- the nested `forEach` of `getPrettyData`.

The properties are proved about the specification functions.

Modules, one per file: `Failures` (`Option`, `Result`, the errors), `Text` (`split`), `JsNumbers` (`parseInt`, `parseFloat`, `Number`), `Bytes` (the Node `Buffer` reads), `Channels`, `TimeStamps`, `Configurations`, `Samples`, `Datasets` (`Data`) and `ComtradeParsers`.

The model follows the code where the code departs from what the COMTRADE format expects:

- Channel lines keep every field as text. Only the presence of the fields is checked, so a non-numeric `a` or `b` does not throw.
- The `A` and `D` suffixes of the channel-count line are not enforced (`CountsWithoutSuffixes`). The total count is not compared with `A + S`.
- Only one sampling-rate line is read, whatever `nrates` says.
- The inner status loop (src/parser.js:307) is bounded only by `16p + j < S`. It has no `j < 16` bound.
  - For `S <= 16` and one status word, the entries are exactly the low `S` bits of the word (`SampleStatusOneWord`).
  - For `16 < S <= 32`, a full record yields `2S - 16` entries. Entries 16 to `S - 1` are always 0, and the second word's bits appear only past the last channel (`SampleStatusOverrun`).
  - The general length is `Σ_p max(0, S - 16p)` (`SampleStatusLength`).
- A short trailing window is decoded as a record instead of being rejected.
  - `LastWindow` gives its length.
  - `DataReadSample` says every window, the short one included, is the decoding of its bytes.
  - `ShortTailExample` is an 18-byte file with 10-byte records. Its second sample has no status entries at all.
  - A short window fails only when it is too short for the reads it makes: under 8 bytes, a missing analog word, or an odd byte in the status part (`StatusDataSuccess`).

## Model

| member | source | states |
|---|---|---|
| Bytes.Subarray | src/parser.js:359 | `subarray(start, end)` is the slice `start..end` when both lie in the buffer, and runs to the end when `end` passes it |
| Bytes.ReadUInt16LE | src/parser.js:306 | succeeds exactly when `offset, offset + 1` lie in the buffer, with a value below 2^16; otherwise a range error at that offset |
| Bytes.ReadInt16LE | src/parser.js:296 | succeeds exactly when the two bytes lie in the buffer; the value is in `[-2^15, 2^15)` and is the unsigned read taken modulo 2^16 (two's complement) |
| Bytes.ReadUInt32LE | src/parser.js:288 | succeeds exactly when the four bytes lie in the buffer, with a value at most `0xFFFFFFFF` |
| Bytes.ReadEncodedUInt16 | src/parser.js:306 | reading an encoded u16 back at its offset gives the value, whatever surrounds it |
| Bytes.ReadEncodedInt16 | src/parser.js:296 | reading an encoded i16 back gives the value, negative values included |
| Bytes.ReadEncodedUInt32 | src/parser.js:288 | reading an encoded u32 back at its offset gives the value |
| Bytes.EncodeReadUInt32 | src/parser.js:288 | every four bytes are the encoding of the u32 read from them (the read is injective) |
| Bytes.EncodeReadUInt16 | src/parser.js:306 | every two bytes are the encoding of the u16 read from them |
| Text.Split | src/parser.js:45 | `split` always yields at least one piece |
| Text.JoinSplit | src/parser.js:45 | splitting loses nothing: joining the pieces with the separator gives the text back |
| Text.SplitPieces | src/parser.js:157 | there is one piece more than separators, and no piece holds the separator |
| Text.SplitPrefix | src/parser.js:248 | a separator-free piece followed by the separator splits off as the first piece |
| Text.SplitNone | src/parser.js:249-250 | text without the separator is a single piece |
| Text.SplitJoin | src/parser.js:157 | separator-free pieces, joined and split, come back unchanged |
| Text.SplitJoinHead | src/parser.js:157-170 | the first pieces of a joined line are its leading fields, whatever fields follow |
| Text.SplitThree | src/parser.js:249-250 | three separator-free pieces joined by the separator split back into those three |
| Text.Before | src/parser.js:54-55 | `s.split(c)[0]` is the longest prefix free of `c`, and `c` follows it when it is shorter than `s` |
| Text.SplitLines | src/parser.js:41 | `split('\r\n')` yields at least one line |
| Text.JoinSplitLines | src/parser.js:41 | splitting into lines loses nothing |
| Text.SplitLinesPrefix | src/parser.js:41 | a line free of `"\r\n"` followed by `"\r\n"` splits off as the first line |
| Text.SplitLinesNone | src/parser.js:41 | text free of `"\r\n"` is one line |
| Text.SplitJoinLines | src/parser.js:41 | lines free of `"\r\n"`, joined and split, come back unchanged |
| JsNumbers.Mul | src/parser.js:266 | the product is NaN exactly when a factor is NaN; otherwise it is the product of the values |
| JsNumbers.Add | src/parser.js:296 | the sum is NaN exactly when a term is NaN; otherwise it is the sum of the values |
| JsNumbers.ParseInt | src/parser.js:53 | `parseInt` of text without a decimal digit is NaN; its values are stated by `ParseIntOfRun` and `ParseIntOfDecimal` |
| JsNumbers.ParseFloat | src/parser.js:78 | `parseFloat` of text without a decimal digit is NaN; its values are stated by `ParseFloatOfRun` and `ParseFloatOfDecimal` |
| JsNumbers.ToNumber | src/parser.js:322 | `Number` of blank text is 0, and of other text without a digit is NaN; its values are stated by `ToNumberOfRun` and `ToNumberOfDecimal` |
| JsNumbers.LoopCount | src/parser.js:59 | `for (i = 0; i < count; i++)` runs `count` times for a non-negative integer, and never for NaN or a count of 0 or less |
| JsNumbers.ParseIntOfRun | src/parser.js:53 | `parseInt` of an optional `-` and a run of digits, followed by a non-digit or nothing, is the value of the run |
| JsNumbers.ParseFloatOfRun | src/parser.js:78 | `parseFloat` of an optional `-` and digits to the end is their value |
| JsNumbers.ParseIntOfDecimal | src/parser.js:53-55 | `parseInt` reads back the decimal text of any integer, whatever non-digit text follows |
| JsNumbers.ParseFloatOfDecimal | src/parser.js:78 | `parseFloat` reads back the decimal text of any integer |
| JsNumbers.ToNumberOfRun | src/parser.js:322 | `Number` of a non-empty run of digits is the value of the digits |
| JsNumbers.ToNumberOfDecimal | src/parser.js:322 | `Number` reads back the decimal text of any natural number |
| Channels.NewAnalogChannel | src/parser.js:155-194 | fails with the analog sanity error exactly when the line has fewer than 13 comma fields; otherwise the channel's fields are the first 13 fields verbatim, empty ones included |
| Channels.NewStatusChannel | src/parser.js:211-235 | fails with the status sanity error exactly when the line has fewer than 5 comma fields; otherwise the fields are the first 5 verbatim |
| Channels.AnalogLineRoundTrip | src/parser.js:155-172 | a line written from a channel's 13 fields, with any further fields, reads back as that channel |
| Channels.StatusLineRoundTrip | src/parser.js:211-220 | a line written from a channel's 5 fields, with any further fields, reads back as that channel |
| TimeStamps.FromLine | src/parser.js:246-250 | fails exactly when the line has no comma (`parts[1]` undefined); otherwise it gives the date and time components |
| TimeStamps.FromLineRoundTrip | src/parser.js:248-250 | `day/month/year,hour:minutes:seconds` gives back its six components |
| TimeStamps.FromBuffer | src/parser.js:257-269 | fails exactly when the buffer is shorter than 4 bytes; the base time is the start time stamp; the offset is null exactly for `0xFFFFFFFF`, and otherwise `raw * ts_mul_fac` |
| TimeStamps.FromBufferRoundTrip | src/parser.js:257-269 | decoding an encoded raw value gives null for the sentinel and `raw * ts_mul_fac` for any other value |
| Configurations.LineAt | src/parser.js:44 | `lines[lineIndex]` is defined exactly when the index is below the line count; otherwise a `TypeError` naming the line |
| Configurations.FieldAt | src/parser.js:54-55 | `parts[k]` is defined exactly when `k` is below the field count; otherwise a `TypeError` naming the field |
| Configurations.SanityCheck | src/parser.js:112-131 | fails exactly when the first line has fewer than 3 fields (`rev_year` undefined), since no other checked field can be undefined |
| Configurations.AnalogLinesNext | src/parser.js:59-64 | one more pass of the analog loop fails on a missing or bad line, and otherwise appends that line's channel |
| Configurations.AnalogLinesLength | src/parser.js:59-64 | a successful analog list has one channel per counted line, all present |
| Configurations.AnalogLinesContents | src/parser.js:59-64 | analog channel `i` is the reading of line `first + i` |
| Configurations.StatusLinesNext | src/parser.js:68-73 | one more pass of the status loop fails on a missing or bad line, and otherwise appends that line's channel |
| Configurations.StatusLinesLength | src/parser.js:68-73 | a successful status list has one channel per counted line |
| Configurations.StatusLinesContents | src/parser.js:68-73 | status channel `i` is the reading of line `first + i` |
| Configurations.AnalogLinesFrame | src/parser.js:59-64 | the analog list depends only on the lines it reads |
| Configurations.StatusLinesFrame | src/parser.js:68-73 | the status list depends only on the lines it reads |
| Configurations.TrailerFrame | src/parser.js:75-105 | the trailer depends only on its seven lines |
| Configurations.ConfigurationChannels | src/parser.js:57-73 | a parsed configuration has `A` analog channels read from the lines from index 2 on and `S` status channels read from index `2 + A` on, and the text has at least `9 + A + S` lines |
| Configurations.ConfigurationHeader | src/parser.js:43-55 | the counts are `parseInt` of field 0 of line 1 and of the text before the first `A` and `D` of fields 1 and 2; the station, device and revision are the first three fields of line 0 |
| Configurations.ConfigurationConsumesExactly | src/parser.js:36-105 | exactly `9 + A + S` lines are read: any text that agrees on them parses to the same configuration |
| Configurations.CountsOfFields | src/parser.js:51-55 | a count line of three comma-free fields gives `parseInt` of field 0 and of the text before `A` and `D` |
| Configurations.CountField | src/parser.js:54 | a field `<n>A...` or `<n>D...` counts `n` |
| Configurations.CountsWithSuffixes | src/parser.js:51-55 | `total,<A>A...,<S>D...` gives the three numbers |
| Configurations.CountsWithoutSuffixes | src/parser.js:54-55 | the line without its `A`/`D` suffixes gives the same three numbers, so the suffixes are not enforced |
| Configurations.ParseCounts | src/parser.js:51-55 | the count line reads exactly when it has at least three fields; otherwise `parts[1]` or `parts[2]` is undefined, and the error names the first missing field |
| Configurations.ParseTrailer | src/parser.js:75-105 | definition of the seven trailing lines read from line `k` on; which line each field comes from is stated by `TrailerFields` |
| Configurations.TrailerFields | src/parser.js:75-105 | a trailer that reads spans lines `k` to `k + 6`: the frequency is `parseFloat` of field 0 of line `k`, `nrates` `parseInt` of field 0 of line `k + 1`, `samp` and `endsamp` fields 0 and 1 of line `k + 2` (`endsamp` NaN when missing), the two time stamps lines `k + 3` and `k + 4`, the file type field 0 of line `k + 5` and the multiplier field 0 of line `k + 6` |
| Configurations.ConfigurationTrailer | src/parser.js:75-105 | a parsed configuration takes its trailer fields from those lines, counted from `2 + A + S` |
| Configurations.ParseLines | src/parser.js:36-109 | definition of `Configuration.Read` over the lines; what it reads is stated by `ConfigurationHeader`, `ConfigurationChannels`, `ConfigurationTrailer` and `ConfigurationConsumesExactly` |
| Configurations.ParseConfiguration | src/parser.js:36-109 | definition of `new Configuration(text)`: the text split into lines on `"\r\n"` and read by `ParseLines` |
| Configurations.ReadConfiguration | src/parser.js:36-109 | the `lineIndex` walk returns the configuration, or the first error, that the grammar function gives |
| Configurations.ReadAnalogChannels | src/parser.js:57-64 | the analog loop computes the analog list |
| Configurations.ReadStatusChannels | src/parser.js:66-73 | the status loop computes the status list |
| Configurations.ReadTrailer | src/parser.js:75-105 | the seven trailing lines computed one after another, each present when it succeeds |
| Samples.Bit | src/parser.js:308 | `(w >> j) & 1` is 0 or 1; which bit it is is stated by `BitIsShift` |
| Samples.BitAtIsDivision | src/parser.js:308 | bit `k` of `w` is `floor(w / 2^k) mod 2` |
| Samples.BitIsShift | src/parser.js:308 | `(w >> j) & 1` is `floor(w / 2^(j mod 32)) mod 2`: the shift count is taken modulo 32 |
| Samples.WordEntries | src/parser.js:307-309 | word `p` adds `max(0, S - 16p)` entries, entry `j` being bit `j` of the word |
| Samples.WordAt | src/parser.js:306 | a status word is a u16, the one read at `start + 2p` |
| Samples.DecodeSample | src/parser.js:285-312 | a record shorter than 8 bytes fails at offset 0; a decoded record's sample number is the u32 at 0 and its time stamp is `fromBuffer` of bytes 4 to 8 |
| Samples.Scaled | src/parser.js:296 | an analog value is NaN exactly when `parseFloat(a)` or `parseFloat(b)` is, and otherwise is `a * raw + b` |
| Samples.AnalogValues | src/parser.js:294-300 | definition of the analog loop as a recursion over the words; its results are stated by `AnalogValuesSuccess`, `AnalogValuesEntry` and `AnalogValuesContents` |
| Samples.StatusData | src/parser.js:303-311 | definition of the status loop: every word from `8 + 2A` to the end of the record, none when `A` is NaN; its results are stated by `StatusDataSuccess` and `SampleStatusLength` |
| Samples.ParsedConfigurationCovers | src/parser.js:59-64 | every parsed configuration has a channel for every counted analog word (`analog_channels[p]` is defined) |
| Samples.AnalogValuesSuccess | src/parser.js:294-300 | the analog loop succeeds exactly when every analog word lies in the buffer, giving one value per word |
| Samples.AnalogValuesEntry | src/parser.js:294-300 | value `i` is the signed word at `8 + 2i`, scaled by channel `i` |
| Samples.AnalogValuesContents | src/parser.js:294-300 | all analog values: `count` of them, value `i` being word `i` scaled by channel `i` |
| Samples.StatusWordsLength | src/parser.js:304-311 | `count` status words yield `Σ_p max(0, S - 16p)` entries |
| Samples.StatusWordsEntry | src/parser.js:304-311 | entry `j` of word `p` sits at `EntryCount(S, p) + j` and is bit `j` of word `p` |
| Samples.StatusWordsSuccess | src/parser.js:304-306 | the status words succeed exactly when each lies wholly in the buffer |
| Samples.HighBitsZero | src/parser.js:308 | shifting a u16 by 16 to 31 places gives 0 |
| Samples.ReadAnalogData | src/parser.js:294-300 | the analog loop (`i`, `p`) computes the analog values |
| Samples.ReadStatusData | src/parser.js:303-311 | the nested status loop computes the entries of every word from the status offset to the end |
| Samples.ReadSample | src/parser.js:285-312 | `Sample.Read` computes the decoded record |
| Samples.SampleAnalogData | src/parser.js:294-300 | a decoded record has one value per counted analog channel, value `i` being `a_i * int16(8 + 2i) + b_i` |
| Samples.StatusDataSuccess | src/parser.js:304-306 | the status part decodes exactly when it starts at or past the end, or starts inside and leaves an even number of bytes |
| Samples.SampleStatusLength | src/parser.js:304-311 | a decoded record has `Σ_p max(0, S - 16p)` status entries over its words |
| Samples.OneWordStatus | src/parser.js:307-309 | one word and `S <= 16`: `S` entries, entry `k` being bit `k` of the word |
| Samples.SampleStatusOneWord | src/parser.js:304-311 | a full record with `1 <= S <= 16` has exactly `S` status entries, entry `k` being bit `k` (least significant first) of the u16 at `8 + 2A` |
| Samples.OneWordRecordDecodes | src/parser.js:285-312 | with no analog channel, a 10-byte record always decodes |
| Samples.StatusWordExample | src/parser.js:304-311 | with no analog channel and `S = 3`, the status word `0x0005` gives the entries `[1, 0, 1]` |
| Samples.SampleParts | src/parser.js:285-312 | a record decodes exactly when it holds the 8 header bytes and its analog and status parts decode, and its values are theirs |
| Samples.TwoWordsOverrun | src/parser.js:307 | two words and `16 < S <= 32`: `2S - 16` entries, entries 16 to `S - 1` are 0, and word 1's bits follow |
| Samples.SampleStatusOverrun | src/parser.js:304-311 | a full record with `16 < S <= 32` has `2S - 16` status entries; channels 17 to `S` read 0, and the second word's bits lie past the last channel |
| Samples.SampleHeaderRoundTrip | src/parser.js:288-291 | a record whose header encodes `number` and `raw` decodes to that sample number and to the time stamp `fromBuffer` gives for `raw` |
| Samples.ArrayIndex | src/parser.js:322 | a number is an array index exactly when it is a non-negative integer |
| Samples.Element | src/parser.js:322 | `array[k]` is defined exactly for an index below the length, and is that element |
| Samples.IndexOfNumber | src/parser.js:316-322 | channel number `k` written in decimal indexes entry `k - 1`, and 0 indexes nothing |
| Samples.GetAnalogValue | src/parser.js:314-325 | `getAnalogValue(n)` carries the record's time and offset, and a defined value is one of the record's analog values; which one is stated by `GetAnalogValueOfNumber` |
| Samples.GetStatusValue | src/parser.js:327-338 | `getStatusValue(n)` carries the record's time and offset, and a defined value is one of the record's status entries; which one is stated by `GetStatusValueOfNumber` |
| Samples.GetAnalogValueOfNumber | src/parser.js:314-325 | `getAnalogValue(k)` carries the record's time and offset, and is value `k - 1` exactly when `1 <= k <= A`, undefined otherwise |
| Samples.GetStatusValueOfNumber | src/parser.js:327-338 | `getStatusValue(k)` is status entry `k - 1` exactly when it exists, undefined otherwise |
| Samples.GetValueOfNaN | src/parser.js:322 | a channel number that is not a number reads undefined |
| Datasets.CeilDiv16 | src/parser.js:346 | `Math.ceil(s / 16)`: the least `q` with `16q >= s` |
| Datasets.RecordSize | src/parser.js:346 | `sample_size` is defined exactly when both counts are integers |
| Datasets.OffsetIsProduct | src/parser.js:357 | after `k` strides the offset is `k * size` |
| Datasets.WindowsBelow | src/parser.js:357 | with a positive size, window `k` is taken exactly when its offset lies before the end |
| Datasets.WindowCountBounds | src/parser.js:357 | there are `ceil(len / size)` windows: the next offset passes the end, and the last window starts before it |
| Datasets.WindowAt | src/parser.js:359 | a window starting inside the buffer holds the next `size` bytes, or all that remain |
| Datasets.SecondWindowEmpty | src/parser.js:357-359 | with a size of 0 or less the second window is empty |
| Datasets.ReadWindows | src/parser.js:357-362 | the stride loop computes the samples of every window it takes, or the first error, and ends even for a size of 0 or less |
| Datasets.ReadData | src/parser.js:352-363 | `Data.Read` computes the samples of the data file |
| Datasets.Windows | src/parser.js:357-362 | definition of the samples of the first `count` windows, in file order; stated by `WindowsLength` and `WindowsEntry` |
| Datasets.DataRead | src/parser.js:352-363 | definition of `Data.Read`: the windows of one stride each, or a single window with a NaN size; stated by `DataReadSample`, `DataReadCount` and `DataReadWithoutStride` |
| Datasets.WindowsLength | src/parser.js:357-362 | successful windows give one sample per window |
| Datasets.WindowsEntry | src/parser.js:357-362 | sample `k` is the decoding of window `k`, in file order |
| Datasets.DataReadSample | src/parser.js:357-362 | sample `k` of a successful read is the decoding of the bytes from `k * size` up to one stride further, cut short at the end of the file, and that window starts inside the file |
| Datasets.LastWindow | src/parser.js:357-359 | the last window is `len - offset` bytes long, and shorter than a record exactly when the length is not a whole number of records |
| Datasets.DataReadCount | src/parser.js:357-362 | a successful read has `ceil(len / size)` samples: the last window starts before the end, and the next offset passes it |
| Datasets.DataReadWithoutStride | src/parser.js:346-360 | with a NaN size or a size of 0 or less, a non-empty data file fails to read |
| Datasets.FullRecordDecodes | src/parser.js:346 | a record of exactly `sample_size` bytes with non-negative counts always decodes, with `A` analog values and `EntryCount(S, ceil(S / 16))` status entries |
| Datasets.RecordWords | src/parser.js:346 | a record of `sample_size` bytes holds exactly `ceil(S / 16)` status words |
| Datasets.ShortTailExample | src/parser.js:357-360 | with `A = 0` and `S = 16`, an 18-byte file reads as two samples, the second from an 8-byte tail with no status entries |
| Datasets.CollectAnalog | src/parser.js:374-376 | the inner `forEach` computes an analog channel's series |
| Datasets.CollectStatus | src/parser.js:385-387 | the inner `forEach` computes a status channel's series |
| Datasets.GetPrettyData | src/parser.js:365-394 | the two outer loops compute the pretty data |
| Datasets.Pretty | src/parser.js:365-394 | definition of `getPrettyData`: one series per configured channel, analog then status; stated by `PrettyAnalogAligned` and `PrettyStatusAligned` |
| Datasets.PrettyAnalogAligned | src/parser.js:365-378 | one series per analog channel, named by its id, with one entry per sample; for channel `i` numbered `i + 1`, entry `k` is value `i` of sample `k` with that sample's time |
| Datasets.PrettyStatusAligned | src/parser.js:380-389 | the same for status channels and status entries |
| ComtradeParsers.NewComtradeParser | src/parser.js:399-403 | the constructor returns the parser, or the first error, of reading the configuration and then the data |
| ComtradeParsers.ParseComtrade | src/parser.js:399-403 | a configuration error is the parser's error; a parser holds the parsed configuration, which covers its analog words, and the samples of the data file read with it |
| ComtradeParsers.GetParserPrettyData | src/parser.js:404-407 | `getPrettyData` is the data's pretty form |
| ComtradeParsers.DataFailure | src/parser.js:399-403 | once the configuration reads, the parser fails exactly when the data fails, with the data's error, and otherwise holds both |
| ComtradeParsers.EmptyDataFile | src/parser.js:357 | an empty data file reads no sample |
| ComtradeParsers.ParsedShape | src/parser.js:397-408 | a parsed recording has one series per counted channel, each with one entry per sample; every sample has one analog value per counted channel; a non-empty file has a positive record size and `ceil(len / size)` samples |

## Left out

- Samples.AnalogValuesContents: values are exact `a * raw + b`, without the `toFixed(4)` rounding of src/parser.js:297, because the model's numbers are exact reals. The same holds for every analog value in the model: `Samples.Scaled`, `Samples.AnalogValuesEntry`, `Samples.SampleAnalogData`, `Samples.ReadAnalogData`, `Samples.ReadSample` and `Datasets.PrettyAnalogAligned` state the unrounded value.
- JsNumbers.ParseFloat: reads white space, a sign and a decimal literal. Exponents, `Infinity` and floating-point rounding are not modelled.
- JsNumbers.ToNumber: reads white space, a sign and a decimal literal that must fill the rest of the text. Exponents, the `0x`, `0o` and `0b` prefixes, `Infinity` and floating-point rounding are not modelled. Every white space character of JavaScript's `WhiteSpace` and `LineTerminator` is skipped.
- JsNumbers.ParseInt: reads base 10 only. The `0x` prefix that `parseInt` without a radix accepts is not modelled.
- TimeStamps.FromLine: stops at the six date and time components. The `Date` built from them depends on the time zone and the calendar, and `parseInt(seconds % 1 * 1e6)` is floating point, so neither is modelled. A time stamp's base time is those components.
- The command line entry point `index.js` reads files, logs and writes JSON. It is I/O and is not part of this model.
- `Buffer.from(dataFile)` in `Data.Read` is taken to receive bytes. Encoding a string argument is not modelled.
- The `config` reference that each `Sample` keeps is not stored. Decoding takes the configuration as a parameter.
- The mutable global `SEPERATOR` is the constant `','`.
- Samples.DecodeSample: requires that the configuration has a channel for every counted analog word. For a configuration built by hand without one, `analog_channels[p].a` would throw a `TypeError`, and that error path is not modelled. Every configuration the parser builds meets the requirement (`ParsedConfigurationCovers`).
- `Configuration`, `Sample` and `Data` are datatypes, not classes. The source sets their fields only inside their constructors and never changes them afterwards.
- Samples.ReadAnalogData: takes the scaling of an analog word as a function parameter. `ReadSample` passes `parseFloat(a) * raw + parseFloat(b)` to it.
