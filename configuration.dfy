/**
 * The configuration file: `Configuration.Read` splits the text on `"\r\n"` and
 * consumes lines in a fixed order with a `lineIndex` counter (identity line,
 * channel counts, A analog lines, S status lines, frequency, `nrates`,
 * `samp`/`endsamp`, start and trigger time stamps, file type, time stamp
 * multiplier); `SanityCheck` runs last.
 */
module Configurations {
  import opened Failures
  import opened Text
  import opened JsNumbers
  import opened Channels
  import opened TimeStamps

  /** A parsed configuration file. Text fields are verbatim; numbers are as JavaScript parses them. */
  datatype Configuration = Configuration(
    stationName: string, recDevId: string, revYear: string,
    channelsCount: ParsedInt, analogCount: ParsedInt, statusCount: ParsedInt,
    analogChannels: seq<AnalogChannel>, statusChannels: seq<StatusChannel>,
    lineFrequency: Num, nrates: ParsedInt, samp: Num, endsamp: Num,
    startTimestamp: DateParts, triggerTimestamp: DateParts,
    fileType: string, tsMulFac: Num)

  /** The three numbers of the channel-count line. */
  datatype Counts = Counts(channels: ParsedInt, analog: ParsedInt, status: ParsedInt)

  /** The fields read from the lines after the channel definitions. */
  datatype Trailer = Trailer(
    lineFrequency: Num, nrates: ParsedInt, samp: Num, endsamp: Num,
    startTimestamp: DateParts, triggerTimestamp: DateParts, fileType: string, tsMulFac: Num)

  /** `lines[i]`, which must exist because `.split` is called on it. */
  function LineAt(lines: seq<string>, i: nat): (r: Result<string>)
    ensures r.Success? <==> i < |lines|
    ensures r.Failure? ==> r.error == UndefinedLine(i)
    ensures r.Success? ==> r.value == lines[i]
  {
    if i < |lines| then Success(lines[i]) else Failure(UndefinedLine(i))
  }

  /** `parts[k]`, which must exist because `.split` is called on it. */
  function FieldAt(parts: seq<string>, k: nat): (r: Result<string>)
    ensures r.Success? <==> k < |parts|
    ensures r.Failure? ==> r.error == UndefinedField(k)
    ensures r.Success? ==> r.value == parts[k]
  {
    if k < |parts| then Success(parts[k]) else Failure(UndefinedField(k))
  }

  /**
   * The channel-count line `total,<A>A,<S>D`: each count is `parseInt` of the
   * text before the first `'A'` (resp. `'D'`) of its field.
   */
  function ParseCounts(line: string): (r: Result<Counts>)
    ensures r.Success? <==> |Split(line, Separator)| >= 3
    ensures r.Failure? ==> r.error == UndefinedField(if |Split(line, Separator)| < 2 then 1 else 2)
  {
    var parts := Split(line, Separator);
    var analogField :- FieldAt(parts, 1);
    var statusField :- FieldAt(parts, 2);
    Success(Counts(ParseInt(parts[0]), ParseInt(Before(analogField, 'A')),
                   ParseInt(Before(statusField, 'D'))))
  }

  /** The first `count` analog channels, read from the lines starting at `first`. */
  function AnalogLines(lines: seq<string>, first: nat, count: nat): Result<seq<AnalogChannel>>
  {
    if count == 0 then Success([])
    else
      var previous :- AnalogLines(lines, first, count - 1);
      var line :- LineAt(lines, first + count - 1);
      var channel :- NewAnalogChannel(line);
      Success(previous + [channel])
  }

  /** The first `count` status channels, read from the lines starting at `first`. */
  function StatusLines(lines: seq<string>, first: nat, count: nat): Result<seq<StatusChannel>>
  {
    if count == 0 then Success([])
    else
      var previous :- StatusLines(lines, first, count - 1);
      var line :- LineAt(lines, first + count - 1);
      var channel :- NewStatusChannel(line);
      Success(previous + [channel])
  }

  /** The seven lines after the channel definitions, starting at line `k`. */
  function ParseTrailer(lines: seq<string>, k: nat): Result<Trailer>
  {
    var frequencyLine :- LineAt(lines, k);
    var nratesLine :- LineAt(lines, k + 1);
    var sampLine :- LineAt(lines, k + 2);
    var sampParts := Split(sampLine, Separator);
    var startLine :- LineAt(lines, k + 3);
    var start :- FromLine(startLine);
    var triggerLine :- LineAt(lines, k + 4);
    var trigger :- FromLine(triggerLine);
    var fileTypeLine :- LineAt(lines, k + 5);
    var multiplierLine :- LineAt(lines, k + 6);
    Success(Trailer(
      ParseFloat(Split(frequencyLine, Separator)[0]),
      ParseInt(Split(nratesLine, Separator)[0]),
      ParseFloat(sampParts[0]),
      // parseFloat(undefined) is NaN
      if |sampParts| > 1 then ParseFloat(sampParts[1]) else NaN,
      start, trigger,
      Split(fileTypeLine, Separator)[0],
      ParseFloat(Split(multiplierLine, Separator)[0])))
  }

  /**
   * `Configuration.SanityCheck`, run after every line is read. It compares nine
   * fields with `undefined`, but `parseInt`/`parseFloat` never return undefined
   * (only NaN) and `split` always yields a first piece, so the only field it can
   * catch is `rev_year`, missing when the first line has fewer than 3 fields.
   */
  function SanityCheck(firstLineParts: seq<string>, counts: Counts, analogChannels: seq<AnalogChannel>,
                       statusChannels: seq<StatusChannel>, trailer: Trailer): (r: Result<Configuration>)
    ensures r.Success? <==> |firstLineParts| >= 3
    ensures r.Failure? ==> r.error == ConfigurationSanity
  {
    if |firstLineParts| < 3 then Failure(ConfigurationSanity)
    else
      Success(Configuration(
        firstLineParts[0], firstLineParts[1], firstLineParts[2],
        counts.channels, counts.analog, counts.status, analogChannels, statusChannels,
        trailer.lineFrequency, trailer.nrates, trailer.samp, trailer.endsamp,
        trailer.startTimestamp, trailer.triggerTimestamp, trailer.fileType, trailer.tsMulFac))
  }

  /** `Configuration.Read` over the lines of the file. */
  function ParseLines(lines: seq<string>): Result<Configuration>
    requires |lines| >= 1
  {
    var countsLine :- LineAt(lines, 1);
    var counts :- ParseCounts(countsLine);
    ParseAfterCounts(lines, counts)
  }

  /** The rest of `Configuration.Read` once the channel counts are known: channels, trailer, sanity check. */
  function ParseAfterCounts(lines: seq<string>, counts: Counts): Result<Configuration>
    requires |lines| >= 1
  {
    var analogChannels :- AnalogLines(lines, 2, LoopCount(counts.analog));
    var statusChannels :- StatusLines(lines, StatusStart(counts.analog), LoopCount(counts.status));
    var trailer :- ParseTrailer(lines, TrailerStart(counts.analog, counts.status));
    SanityCheck(Split(lines[0], Separator), counts, analogChannels, statusChannels, trailer)
  }

  /** The line the status channel definitions start at: after lines 0 and 1 and the analog channel lines. */
  function StatusStart(analog: ParsedInt): nat
  {
    2 + LoopCount(analog)
  }

  /** The line the frequency line and the rest of the trailer start at. */
  function TrailerStart(analog: ParsedInt, status: ParsedInt): nat
  {
    StatusStart(analog) + LoopCount(status)
  }

  /** `new Configuration(configFile)`: the text is split into lines on `"\r\n"`. */
  function ParseConfiguration(text: string): Result<Configuration>
  {
    ParseLines(SplitLines(text))
  }

  /** The number of lines a configuration with these channel lists is read from. */
  function LinesConsumed(c: Configuration): nat
  {
    9 + |c.analogChannels| + |c.statusChannels|
  }

  /** Once the channel list fails, reading more channels fails the same way. */
  lemma {:induction false} AnalogLinesFailure(lines: seq<string>, first: nat, i: nat, count: nat)
    requires i <= count
    requires AnalogLines(lines, first, i).Failure?
    ensures AnalogLines(lines, first, count) == AnalogLines(lines, first, i)
    decreases count - i
  {
    if i < count {
      AnalogLinesFailure(lines, first, i + 1, count);
    }
  }

  /** Once the channel list fails, reading more channels fails the same way. */
  lemma {:induction false} StatusLinesFailure(lines: seq<string>, first: nat, i: nat, count: nat)
    requires i <= count
    requires StatusLines(lines, first, i).Failure?
    ensures StatusLines(lines, first, count) == StatusLines(lines, first, i)
    decreases count - i
  {
    if i < count {
      StatusLinesFailure(lines, first, i + 1, count);
    }
  }

  /** One step of a successful analog channel list: the list before it, and the channel of its last line. */
  lemma AnalogLinesStep(lines: seq<string>, first: nat, count: nat, channels: seq<AnalogChannel>)
    requires count > 0
    requires AnalogLines(lines, first, count) == Success(channels)
    ensures first + count - 1 < |lines|
    ensures AnalogLines(lines, first, count - 1).Success?
    ensures NewAnalogChannel(lines[first + count - 1]).Success?
    ensures channels == AnalogLines(lines, first, count - 1).value + [NewAnalogChannel(lines[first + count - 1]).value]
  {
  }

  /**
   * Reading one more analog channel after a successful list: it fails when the
   * next line is missing or does not read, and otherwise appends its channel.
   */
  lemma AnalogLinesNext(lines: seq<string>, first: nat, count: nat, channels: seq<AnalogChannel>)
    requires AnalogLines(lines, first, count) == Success(channels)
    ensures first + count >= |lines| ==> AnalogLines(lines, first, count + 1) == Failure(UndefinedLine(first + count))
    ensures first + count < |lines| && NewAnalogChannel(lines[first + count]).Failure? ==>
              AnalogLines(lines, first, count + 1) == Failure(NewAnalogChannel(lines[first + count]).error)
    ensures first + count < |lines| && NewAnalogChannel(lines[first + count]).Success? ==>
              AnalogLines(lines, first, count + 1) == Success(channels + [NewAnalogChannel(lines[first + count]).value])
  {
  }

  /** A successful analog channel list has one channel per counted line. */
  lemma {:induction false} AnalogLinesLength(lines: seq<string>, first: nat, count: nat, channels: seq<AnalogChannel>)
    requires AnalogLines(lines, first, count) == Success(channels)
    ensures |channels| == count
    ensures count > 0 ==> first + count <= |lines|
  {
    if count > 0 {
      AnalogLinesStep(lines, first, count, channels);
      AnalogLinesLength(lines, first, count - 1, AnalogLines(lines, first, count - 1).value);
    }
  }

  /** The analog channels are the lines `first .. first + count - 1`, each read by `NewAnalogChannel`. */
  lemma {:induction false} AnalogLinesContents(lines: seq<string>, first: nat, count: nat, channels: seq<AnalogChannel>)
    requires AnalogLines(lines, first, count) == Success(channels)
    ensures |channels| == count
    ensures count > 0 ==> first + count <= |lines|
    ensures forall n :: first <= n < first + count ==> NewAnalogChannel(lines[n]) == Success(channels[n - first])
  {
    if count > 0 {
      AnalogLinesStep(lines, first, count, channels);
      var previous := AnalogLines(lines, first, count - 1).value;
      AnalogLinesContents(lines, first, count - 1, previous);
      forall n | first <= n < first + count
        ensures NewAnalogChannel(lines[n]) == Success(channels[n - first])
      {
        if n < first + count - 1 {
          assert channels[n - first] == previous[n - first];
        }
      }
    }
  }

  /** One step of a successful status channel list: the list before it, and the channel of its last line. */
  lemma StatusLinesStep(lines: seq<string>, first: nat, count: nat, channels: seq<StatusChannel>)
    requires count > 0
    requires StatusLines(lines, first, count) == Success(channels)
    ensures first + count - 1 < |lines|
    ensures StatusLines(lines, first, count - 1).Success?
    ensures NewStatusChannel(lines[first + count - 1]).Success?
    ensures channels == StatusLines(lines, first, count - 1).value + [NewStatusChannel(lines[first + count - 1]).value]
  {
  }

  /**
   * Reading one more status channel after a successful list: it fails when the
   * next line is missing or does not read, and otherwise appends its channel.
   */
  lemma StatusLinesNext(lines: seq<string>, first: nat, count: nat, channels: seq<StatusChannel>)
    requires StatusLines(lines, first, count) == Success(channels)
    ensures first + count >= |lines| ==> StatusLines(lines, first, count + 1) == Failure(UndefinedLine(first + count))
    ensures first + count < |lines| && NewStatusChannel(lines[first + count]).Failure? ==>
              StatusLines(lines, first, count + 1) == Failure(NewStatusChannel(lines[first + count]).error)
    ensures first + count < |lines| && NewStatusChannel(lines[first + count]).Success? ==>
              StatusLines(lines, first, count + 1) == Success(channels + [NewStatusChannel(lines[first + count]).value])
  {
  }

  /** A successful status channel list has one channel per counted line. */
  lemma {:induction false} StatusLinesLength(lines: seq<string>, first: nat, count: nat, channels: seq<StatusChannel>)
    requires StatusLines(lines, first, count) == Success(channels)
    ensures |channels| == count
    ensures count > 0 ==> first + count <= |lines|
  {
    if count > 0 {
      StatusLinesStep(lines, first, count, channels);
      StatusLinesLength(lines, first, count - 1, StatusLines(lines, first, count - 1).value);
    }
  }

  /** The status channels are the lines `first .. first + count - 1`, each read by `NewStatusChannel`. */
  lemma {:induction false} StatusLinesContents(lines: seq<string>, first: nat, count: nat, channels: seq<StatusChannel>)
    requires StatusLines(lines, first, count) == Success(channels)
    ensures |channels| == count
    ensures count > 0 ==> first + count <= |lines|
    ensures forall n :: first <= n < first + count ==> NewStatusChannel(lines[n]) == Success(channels[n - first])
  {
    if count > 0 {
      StatusLinesStep(lines, first, count, channels);
      var previous := StatusLines(lines, first, count - 1).value;
      StatusLinesContents(lines, first, count - 1, previous);
      forall n | first <= n < first + count
        ensures NewStatusChannel(lines[n]) == Success(channels[n - first])
      {
        if n < first + count - 1 {
          assert channels[n - first] == previous[n - first];
        }
      }
    }
  }

  /** The analog channel list depends only on the lines it is read from. */
  lemma {:induction false} AnalogLinesFrame(lines: seq<string>, other: seq<string>, first: nat, count: nat)
    requires first + count <= |lines| && first + count <= |other|
    requires forall i :: first <= i < first + count ==> lines[i] == other[i]
    ensures AnalogLines(lines, first, count) == AnalogLines(other, first, count)
  {
    if count > 0 {
      AnalogLinesFrame(lines, other, first, count - 1);
    }
  }

  /** The status channel list depends only on the lines it is read from. */
  lemma {:induction false} StatusLinesFrame(lines: seq<string>, other: seq<string>, first: nat, count: nat)
    requires first + count <= |lines| && first + count <= |other|
    requires forall i :: first <= i < first + count ==> lines[i] == other[i]
    ensures StatusLines(lines, first, count) == StatusLines(other, first, count)
  {
    if count > 0 {
      StatusLinesFrame(lines, other, first, count - 1);
    }
  }

  /** A successful parse read the counts from line 1 and went on from there. */
  lemma ParseLinesCounts(lines: seq<string>)
    requires |lines| >= 1
    requires ParseLines(lines).Success?
    ensures |lines| >= 2 && ParseCounts(lines[1]).Success?
    ensures ParseLines(lines) == ParseAfterCounts(lines, ParseCounts(lines[1]).value)
  {
  }

  /** A successful parse after the counts went through both channel lists, the trailer and the sanity check. */
  lemma AfterCountsSteps(lines: seq<string>, counts: Counts)
    requires |lines| >= 1
    requires ParseAfterCounts(lines, counts).Success?
    ensures AnalogLines(lines, 2, LoopCount(counts.analog)).Success?
    ensures StatusLines(lines, StatusStart(counts.analog), LoopCount(counts.status)).Success?
    ensures ParseTrailer(lines, TrailerStart(counts.analog, counts.status)).Success?
    ensures ParseAfterCounts(lines, counts)
            == SanityCheck(Split(lines[0], Separator), counts,
                           AnalogLines(lines, 2, LoopCount(counts.analog)).value,
                           StatusLines(lines, StatusStart(counts.analog), LoopCount(counts.status)).value,
                           ParseTrailer(lines, TrailerStart(counts.analog, counts.status)).value)
  {
  }

  /** The seven trailer lines exist when the trailer is read. */
  lemma TrailerLines(lines: seq<string>, k: nat)
    requires ParseTrailer(lines, k).Success?
    ensures k + 7 <= |lines|
  {
    assert LineAt(lines, k + 6).Success?;
  }

  /** The trailer depends only on its seven lines. */
  lemma TrailerFrame(lines: seq<string>, other: seq<string>, k: nat)
    requires k + 7 <= |lines| && k + 7 <= |other|
    requires forall i :: k <= i < k + 7 ==> lines[i] == other[i]
    ensures ParseTrailer(lines, k) == ParseTrailer(other, k)
  {
    assert lines[k] == other[k] && lines[k + 1] == other[k + 1] && lines[k + 2] == other[k + 2];
    assert lines[k + 3] == other[k + 3] && lines[k + 4] == other[k + 4];
    assert lines[k + 5] == other[k + 5] && lines[k + 6] == other[k + 6];
  }

  /**
   * The fields of the trailer read from line `k` on, each from its own line in
   * order: frequency, `nrates`, `samp`/`endsamp`, start and trigger time
   * stamps, file type, multiplier.
   */
  lemma TrailerFields(lines: seq<string>, k: nat, t: Trailer)
    requires ParseTrailer(lines, k) == Success(t)
    ensures k + 7 <= |lines|
    ensures t.lineFrequency == ParseFloat(Split(lines[k], Separator)[0])
    ensures t.nrates == ParseInt(Split(lines[k + 1], Separator)[0])
    ensures t.samp == ParseFloat(Split(lines[k + 2], Separator)[0])
    ensures t.endsamp == if |Split(lines[k + 2], Separator)| > 1 then ParseFloat(Split(lines[k + 2], Separator)[1]) else NaN
    ensures FromLine(lines[k + 3]) == Success(t.startTimestamp)
    ensures FromLine(lines[k + 4]) == Success(t.triggerTimestamp)
    ensures t.fileType == Split(lines[k + 5], Separator)[0]
    ensures t.tsMulFac == ParseFloat(Split(lines[k + 6], Separator)[0])
  {
    TrailerLines(lines, k);
  }

  /** The channel lists of a configuration read after the counts, and the lines they and the trailer need. */
  lemma AfterCountsChannels(lines: seq<string>, counts: Counts, c: Configuration)
    requires |lines| >= 1
    requires ParseAfterCounts(lines, counts) == Success(c)
    ensures c.analogCount == counts.analog && c.statusCount == counts.status
    ensures AnalogLines(lines, 2, LoopCount(c.analogCount)) == Success(c.analogChannels)
    ensures StatusLines(lines, StatusStart(c.analogCount), LoopCount(c.statusCount)) == Success(c.statusChannels)
    ensures TrailerStart(c.analogCount, c.statusCount) + 7 <= |lines|
  {
    AfterCountsSteps(lines, counts);
    TrailerLines(lines, TrailerStart(counts.analog, counts.status));
  }

  /**
   * The channel lists of a successful parse: the A analog channels are read
   * from the lines from 2 on, the S status channels from the lines from 2 + A
   * on (see `AnalogLinesContents`), and at least 9 + A + S lines are present.
   */
  lemma ConfigurationChannels(lines: seq<string>, c: Configuration)
    requires |lines| >= 1
    requires ParseLines(lines) == Success(c)
    ensures AnalogLines(lines, 2, LoopCount(c.analogCount)) == Success(c.analogChannels)
    ensures StatusLines(lines, StatusStart(c.analogCount), LoopCount(c.statusCount)) == Success(c.statusChannels)
    ensures |c.analogChannels| == LoopCount(c.analogCount)
    ensures |c.statusChannels| == LoopCount(c.statusCount)
    ensures LinesConsumed(c) <= |lines|
  {
    ParseLinesCounts(lines);
    AfterCountsChannels(lines, ParseCounts(lines[1]).value, c);
    AnalogLinesLength(lines, 2, LoopCount(c.analogCount), c.analogChannels);
    StatusLinesLength(lines, StatusStart(c.analogCount), LoopCount(c.statusCount), c.statusChannels);
  }

  /** The header fields of a configuration read after the counts. */
  lemma AfterCountsHeader(lines: seq<string>, counts: Counts, c: Configuration)
    requires |lines| >= 1
    requires ParseAfterCounts(lines, counts) == Success(c)
    ensures c.channelsCount == counts.channels
    ensures c.analogCount == counts.analog && c.statusCount == counts.status
    ensures |Split(lines[0], Separator)| >= 3
    ensures [c.stationName, c.recDevId, c.revYear] == Split(lines[0], Separator)[..3]
  {
    AfterCountsSteps(lines, counts);
  }

  /**
   * The header of a successful parse: the counts are `parseInt` of field 0 of
   * line 1 and of the text before `'A'` and `'D'` in its fields 1 and 2, and the
   * station name, device id and revision year are the first three fields of
   * line 0.
   */
  lemma ConfigurationHeader(lines: seq<string>, c: Configuration)
    requires |lines| >= 1
    requires ParseLines(lines) == Success(c)
    ensures |lines| >= 2 && |Split(lines[1], Separator)| >= 3
    ensures c.channelsCount == ParseInt(Split(lines[1], Separator)[0])
    ensures c.analogCount == ParseInt(Before(Split(lines[1], Separator)[1], 'A'))
    ensures c.statusCount == ParseInt(Before(Split(lines[1], Separator)[2], 'D'))
    ensures |Split(lines[0], Separator)| >= 3
    ensures [c.stationName, c.recDevId, c.revYear] == Split(lines[0], Separator)[..3]
  {
    ParseLinesCounts(lines);
    AfterCountsHeader(lines, ParseCounts(lines[1]).value, c);
  }

  /** The trailer fields of a configuration read after the counts come from the trailer read at `TrailerStart`. */
  lemma AfterCountsTrailer(lines: seq<string>, counts: Counts, c: Configuration)
    requires |lines| >= 1
    requires ParseAfterCounts(lines, counts) == Success(c)
    ensures c.analogCount == counts.analog && c.statusCount == counts.status
    ensures ParseTrailer(lines, TrailerStart(counts.analog, counts.status))
            == Success(Trailer(c.lineFrequency, c.nrates, c.samp, c.endsamp,
                               c.startTimestamp, c.triggerTimestamp, c.fileType, c.tsMulFac))
  {
    AfterCountsSteps(lines, counts);
  }

  /**
   * The trailer of a successful parse: with `T = 2 + A + S`, the frequency is
   * `parseFloat` of field 0 of line `T`, `nrates` `parseInt` of field 0 of line
   * `T + 1`, `samp` and `endsamp` fields 0 and 1 of line `T + 2` (NaN when
   * field 1 is missing), the start and trigger time stamps lines `T + 3` and
   * `T + 4`, the file type field 0 of line `T + 5` and the time stamp
   * multiplier `parseFloat` of field 0 of line `T + 6`.
   */
  lemma ConfigurationTrailer(lines: seq<string>, c: Configuration)
    requires |lines| >= 1
    requires ParseLines(lines) == Success(c)
    ensures var t := TrailerStart(c.analogCount, c.statusCount);
            && t + 7 <= |lines|
            && c.lineFrequency == ParseFloat(Split(lines[t], Separator)[0])
            && c.nrates == ParseInt(Split(lines[t + 1], Separator)[0])
            && c.samp == ParseFloat(Split(lines[t + 2], Separator)[0])
            && c.endsamp == (if |Split(lines[t + 2], Separator)| > 1
                             then ParseFloat(Split(lines[t + 2], Separator)[1]) else NaN)
            && FromLine(lines[t + 3]) == Success(c.startTimestamp)
            && FromLine(lines[t + 4]) == Success(c.triggerTimestamp)
            && c.fileType == Split(lines[t + 5], Separator)[0]
            && c.tsMulFac == ParseFloat(Split(lines[t + 6], Separator)[0])
  {
    var trailer := Trailer(c.lineFrequency, c.nrates, c.samp, c.endsamp,
                           c.startTimestamp, c.triggerTimestamp, c.fileType, c.tsMulFac);
    ParsedTrailer(lines, c);
    TrailerFields(lines, TrailerStart(c.analogCount, c.statusCount), trailer);
  }

  /** A successful parse holds the trailer read at `TrailerStart`. */
  lemma ParsedTrailer(lines: seq<string>, c: Configuration)
    requires |lines| >= 1
    requires ParseLines(lines) == Success(c)
    ensures ParseTrailer(lines, TrailerStart(c.analogCount, c.statusCount))
            == Success(Trailer(c.lineFrequency, c.nrates, c.samp, c.endsamp,
                               c.startTimestamp, c.triggerTimestamp, c.fileType, c.tsMulFac))
  {
    ParseLinesCounts(lines);
    AfterCountsTrailer(lines, ParseCounts(lines[1]).value, c);
  }

  /** After the counts, only the lines up to 9 + A + S are read. */
  lemma AfterCountsFrame(lines: seq<string>, other: seq<string>, counts: Counts)
    requires |lines| >= 1 && |other| >= 1
    requires ParseAfterCounts(lines, counts).Success?
    requires TrailerStart(counts.analog, counts.status) + 7 <= |other|
    requires forall i :: 0 <= i < TrailerStart(counts.analog, counts.status) + 7 ==>
               i < |lines| && lines[i] == other[i]
    ensures ParseAfterCounts(other, counts) == ParseAfterCounts(lines, counts)
  {
    AfterCountsSteps(lines, counts);
    AnalogLinesFrame(lines, other, 2, LoopCount(counts.analog));
    StatusLinesFrame(lines, other, StatusStart(counts.analog), LoopCount(counts.status));
    TrailerFrame(lines, other, TrailerStart(counts.analog, counts.status));
    assert lines[0] == other[0];
  }

  /**
   * Exactly 9 + A + S lines are read: any other text that agrees on those lines
   * parses to the same configuration, whatever follows them.
   */
  lemma ConfigurationConsumesExactly(lines: seq<string>, other: seq<string>, c: Configuration)
    requires |lines| >= 1 && |other| >= 1
    requires ParseLines(lines) == Success(c)
    requires LinesConsumed(c) <= |other|
    requires forall i :: 0 <= i < LinesConsumed(c) ==> i < |lines| && lines[i] == other[i]
    ensures ParseLines(other) == Success(c)
  {
    ParseLinesCounts(lines);
    var counts := ParseCounts(lines[1]).value;
    ConfigurationChannels(lines, c);
    AfterCountsChannels(lines, counts, c);
    AfterCountsFrame(lines, other, counts);
    assert lines[1] == other[1];
  }

  /** A count line of three comma-free fields gives `parseInt` of the first field and of the text before `'A'` and `'D'`. */
  lemma CountsOfFields(f0: string, f1: string, f2: string)
    requires Separator !in f0 && Separator !in f1 && Separator !in f2
    ensures ParseCounts(f0 + "," + f1 + "," + f2)
            == Success(Counts(ParseInt(f0), ParseInt(Before(f1, 'A')), ParseInt(Before(f2, 'D'))))
  {
    SplitThree(f0, f1, f2, Separator);
    assert f0 + "," + f1 + "," + f2 == f0 + [Separator] + f1 + [Separator] + f2;
  }

  /** A count field `<n><c><rest>` reads as `n`: the text before `c` is the decimal text of `n`. */
  lemma CountField(n: int, c: char, rest: string)
    requires !IsDigit(c) && c != '-'
    ensures ParseInt(Before(IntToDecimal(n) + [c] + rest, c)) == Int(n)
  {
    DecimalFree(n, c);
    BeforeAt(IntToDecimal(n), c, rest);
    ParseIntOfDecimal(n, "");
    assert IntToDecimal(n) + "" == IntToDecimal(n);
  }

  /** A count line `total,<A>A,<S>D` gives the three numbers, whatever follows each suffix. */
  lemma CountsWithSuffixes(total: int, analog: int, status: int, analogRest: string, statusRest: string)
    requires Separator !in analogRest && Separator !in statusRest
    ensures ParseCounts(IntToDecimal(total) + "," + (IntToDecimal(analog) + "A" + analogRest)
                        + "," + (IntToDecimal(status) + "D" + statusRest))
            == Success(Counts(Int(total), Int(analog), Int(status)))
  {
    var f0 := IntToDecimal(total);
    var f1 := IntToDecimal(analog) + "A" + analogRest;
    var f2 := IntToDecimal(status) + "D" + statusRest;
    DecimalFree(total, Separator);
    DecimalFree(analog, Separator);
    DecimalFree(status, Separator);
    assert Separator !in f1 && Separator !in f2;
    CountsOfFields(f0, f1, f2);
    CountField(analog, 'A', analogRest);
    CountField(status, 'D', statusRest);
    ParseIntOfDecimal(total, "");
    assert f0 + "" == f0;
  }

  /** A count field without its `'A'`/`'D'` suffix is still read as the whole number: the suffix is not enforced. */
  lemma CountsWithoutSuffixes(total: int, analog: int, status: int)
    ensures ParseCounts(IntToDecimal(total) + "," + IntToDecimal(analog) + "," + IntToDecimal(status))
            == Success(Counts(Int(total), Int(analog), Int(status)))
  {
    var f0 := IntToDecimal(total);
    var f1 := IntToDecimal(analog);
    var f2 := IntToDecimal(status);
    DecimalFree(total, Separator);
    DecimalFree(analog, Separator);
    DecimalFree(status, Separator);
    DecimalFree(analog, 'A');
    DecimalFree(status, 'D');
    CountsOfFields(f0, f1, f2);
    BeforeAbsent(f1, 'A');
    BeforeAbsent(f2, 'D');
    ParseIntOfDecimal(total, "");
    ParseIntOfDecimal(analog, "");
    ParseIntOfDecimal(status, "");
    assert f0 + "" == f0 && f1 + "" == f1 && f2 + "" == f2;
  }

  /** Decimal text holds only digits and `'-'`. */
  lemma DecimalFree(n: int, c: char)
    requires !IsDigit(c) && c != '-'
    ensures c !in IntToDecimal(n)
  {
    var d := NatToDecimal(if n < 0 then -n else n);
    assert forall k :: 0 <= k < |d| ==> IsDigit(d[k]);
    assert c !in d;
  }

  /** The text before the first `c` of `p + [c] + rest` is `p` when `p` has no `c`. */
  lemma {:induction false} BeforeAt(p: string, c: char, rest: string)
    requires c !in p
    ensures Before(p + [c] + rest, c) == p
  {
    if |p| > 0 {
      BeforeAt(p[1..], c, rest);
      assert (p + [c] + rest)[1..] == p[1..] + [c] + rest;
    } else {
      assert (p + [c] + rest)[0] == c;
    }
  }

  /** The text before `c` is everything when there is no `c`. */
  lemma {:induction false} BeforeAbsent(p: string, c: char)
    requires c !in p
    ensures Before(p, c) == p
  {
    if |p| > 0 {
      BeforeAbsent(p[1..], c);
      assert [p[0]] + p[1..] == p;
    }
  }

  /**
   * `Configuration.Read` as the source runs it: a `lineIndex` counter that
   * advances one line at a time, and two loops that push one channel per line.
   */
  method ReadConfiguration(text: string) returns (r: Result<Configuration>)
    ensures r == ParseConfiguration(text)
  {
    var lines := SplitLines(text);
    var lineIndex := 0;
    var line: string;

    // First line: station name, device id, revision year
    line := lines[lineIndex];
    lineIndex := lineIndex + 1;
    var firstLineParts := Split(line, Separator);

    // Channel counts
    if lineIndex >= |lines| {
      return Failure(UndefinedLine(lineIndex));
    }
    line := lines[lineIndex];
    lineIndex := lineIndex + 1;
    var counts :- ParseCounts(line);

    // Analog channels, then status channels
    var analogChannels :- ReadAnalogChannels(lines, lineIndex, LoopCount(counts.analog));
    lineIndex := StatusStart(counts.analog);
    var statusChannels :- ReadStatusChannels(lines, lineIndex, LoopCount(counts.status));
    lineIndex := TrailerStart(counts.analog, counts.status);

    // Frequency, sampling rates, time stamps, file type, multiplier
    var trailer :- ReadTrailer(lines, lineIndex);

    // Sanity check: only `rev_year` can be undefined
    r := SanityCheck(firstLineParts, counts, analogChannels, statusChannels, trailer);
  }

  /** The loop over the analog channel lines: one channel per line, from line `first` on. */
  method ReadAnalogChannels(lines: seq<string>, first: nat, count: nat) returns (r: Result<seq<AnalogChannel>>)
    ensures r == AnalogLines(lines, first, count)
  {
    var channels: seq<AnalogChannel> := [];
    var lineIndex := first;
    var i := 0;
    while i < count
      invariant 0 <= i <= count
      invariant lineIndex == first + i
      invariant AnalogLines(lines, first, i) == Success(channels)
    {
      AnalogLinesNext(lines, first, i, channels);
      if lineIndex >= |lines| {
        AnalogLinesFailure(lines, first, i + 1, count);
        return Failure(UndefinedLine(lineIndex));
      }
      var line := lines[lineIndex];
      lineIndex := lineIndex + 1;
      var channel := NewAnalogChannel(line);
      if channel.Failure? {
        AnalogLinesFailure(lines, first, i + 1, count);
        return Failure(channel.error);
      }
      channels := channels + [channel.value];
      i := i + 1;
    }
    r := Success(channels);
  }

  /** The loop over the status channel lines: one channel per line, from line `first` on. */
  method ReadStatusChannels(lines: seq<string>, first: nat, count: nat) returns (r: Result<seq<StatusChannel>>)
    ensures r == StatusLines(lines, first, count)
  {
    var channels: seq<StatusChannel> := [];
    var lineIndex := first;
    var i := 0;
    while i < count
      invariant 0 <= i <= count
      invariant lineIndex == first + i
      invariant StatusLines(lines, first, i) == Success(channels)
    {
      StatusLinesNext(lines, first, i, channels);
      if lineIndex >= |lines| {
        StatusLinesFailure(lines, first, i + 1, count);
        return Failure(UndefinedLine(lineIndex));
      }
      var line := lines[lineIndex];
      lineIndex := lineIndex + 1;
      var channel := NewStatusChannel(line);
      if channel.Failure? {
        StatusLinesFailure(lines, first, i + 1, count);
        return Failure(channel.error);
      }
      channels := channels + [channel.value];
      i := i + 1;
    }
    r := Success(channels);
  }

  /**
   * The seven trailing lines, read one after the other from line `lineIndex` on:
   * the imperative rendering of the parser's `lineIndex` walk, which advances the
   * index by one per line read. `ParseTrailer` is its specification.
   */
  method ReadTrailer(lines: seq<string>, lineIndex: nat) returns (r: Result<Trailer>)
    ensures r == ParseTrailer(lines, lineIndex)
    ensures r.Success? ==> lineIndex + 7 <= |lines|
  {
    var index := lineIndex;
    var line: string;

    // Line frequency
    if index >= |lines| { return Failure(UndefinedLine(index)); }
    line := lines[index];
    index := index + 1;
    var lineFrequency := ParseFloat(Split(line, Separator)[0]);

    // nrates
    if index >= |lines| { return Failure(UndefinedLine(index)); }
    line := lines[index];
    index := index + 1;
    var nrates := ParseInt(Split(line, Separator)[0]);

    // samp, endsamp
    if index >= |lines| { return Failure(UndefinedLine(index)); }
    line := lines[index];
    index := index + 1;
    var sampParts := Split(line, Separator);
    var samp := ParseFloat(sampParts[0]);
    var endsamp := if |sampParts| > 1 then ParseFloat(sampParts[1]) else NaN;

    // Time stamps
    if index >= |lines| { return Failure(UndefinedLine(index)); }
    line := lines[index];
    index := index + 1;
    var start := FromLine(line);
    if start.Failure? { return Failure(start.error); }
    if index >= |lines| { return Failure(UndefinedLine(index)); }
    line := lines[index];
    index := index + 1;
    var trigger := FromLine(line);
    if trigger.Failure? { return Failure(trigger.error); }

    // File type
    if index >= |lines| { return Failure(UndefinedLine(index)); }
    line := lines[index];
    index := index + 1;
    var fileType := Split(line, Separator)[0];

    // Time stamp multiplier factor
    if index >= |lines| { return Failure(UndefinedLine(index)); }
    line := lines[index];
    index := index + 1;
    var tsMulFac := ParseFloat(Split(line, Separator)[0]);

    r := Success(Trailer(lineFrequency, nrates, samp, endsamp, start.value, trigger.value,
                         fileType, tsMulFac));
  }
}
