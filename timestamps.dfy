/**
 * `TimeStamp`: the text form of the configuration file (`fromLine`) and the
 * four-byte form of a data record (`fromBuffer`), whose raw value 0xFFFFFFFF
 * means "no time stamp".
 */
module TimeStamps {
  import opened Failures
  import opened Text
  import opened JsNumbers
  import opened Bytes

  /**
   * The date and time components `fromLine` hands to the `Date` constructor,
   * as text (`dd/mm/yyyy,hh:mm:ss.ssssss`); a component the line lacks is undefined.
   */
  datatype DateParts = DateParts(
    day: Option<string>, month: Option<string>, year: Option<string>,
    hour: Option<string>, minutes: Option<string>, seconds: Option<string>)

  /**
   * A record's time stamp: the base `time` and the offset `timeMicroseconds`,
   * which is `None` (JavaScript's `null`) for the sentinel.
   */
  datatype TimeStamp = TimeStamp(time: DateParts, timeMicroseconds: Option<Num>)

  /**
   * `TimeStamp.fromLine(line)`, up to the construction of the `Date`: the date
   * field is split on `'/'` and the time field on `':'`. A line without a comma
   * has no time field, and `parts[1].split` throws.
   */
  function FromLine(line: string): (r: Result<DateParts>)
    ensures r.Success? <==> Separator in line
    ensures r.Failure? ==> r.error == UndefinedField(1)
  {
    var parts := Split(line, Separator);
    SplitPieces(line, Separator);
    assert Separator in line <==> Occurrences(line, Separator) > 0 by {
      OccurrencesPositive(line, Separator);
    }
    if |parts| < 2 then Failure(UndefinedField(1))
    else
      var date := Split(parts[0], '/');
      var time := Split(parts[1], ':');
      Success(DateParts(At(date, 0), At(date, 1), At(date, 2), At(time, 0), At(time, 1), At(time, 2)))
  }

  lemma {:induction false} OccurrencesPositive(s: string, c: char)
    ensures c in s <==> Occurrences(s, c) > 0
  {
    if |s| > 0 {
      OccurrencesPositive(s[1..], c);
      assert s == [s[0]] + s[1..];
    }
  }

  /** A line written as `day/month/year,hour:minutes:seconds` gives back its six components. */
  lemma FromLineRoundTrip(day: string, month: string, year: string,
                          hour: string, minutes: string, seconds: string)
    requires Separator !in day + month + year + hour + minutes + seconds
    requires '/' !in day + month + year
    requires ':' !in hour + minutes + seconds
    ensures FromLine(day + "/" + month + "/" + year + "," + hour + ":" + minutes + ":" + seconds)
            == Success(DateParts(Some(day), Some(month), Some(year),
                                 Some(hour), Some(minutes), Some(seconds)))
  {
    var date := day + "/" + month + "/" + year;
    var time := hour + ":" + minutes + ":" + seconds;
    assert Separator !in date && Separator !in time;
    SplitPrefix(date, Separator, time);
    SplitNone(time, Separator);
    var line := day + "/" + month + "/" + year + "," + hour + ":" + minutes + ":" + seconds;
    assert line == date + [Separator] + time;
    assert Split(line, Separator) == [date, time];
    SplitThree(day, month, year, '/');
    assert date == day + ['/'] + month + ['/'] + year;
    SplitThree(hour, minutes, seconds, ':');
    assert time == hour + [':'] + minutes + [':'] + seconds;
  }

  /**
   * `TimeStamp.fromBuffer(buffer, config)`, with the configuration's start time
   * stamp and time stamp multiplier passed in: the little-endian u32 at offset 0
   * is the raw offset; 0xFFFFFFFF gives a null offset, any other raw value gives
   * `raw * tsMulFac`; the base time is always the start time stamp's.
   */
  function FromBuffer(buffer: seq<byte>, start: DateParts, tsMulFac: Num): (r: Result<TimeStamp>)
    ensures r.Success? <==> |buffer| >= 4
    ensures r.Failure? ==> r.error == OutOfRange(0)
    ensures r.Success? ==> r.value.time == start
    ensures r.Success? ==>
              (r.value.timeMicroseconds.None? <==> ReadUInt32LE(buffer, 0).value == Sentinel32)
    ensures r.Success? && r.value.timeMicroseconds.Some? ==>
              r.value.timeMicroseconds.value == Mul(Val(ReadUInt32LE(buffer, 0).value as real), tsMulFac)
  {
    var raw :- ReadUInt32LE(buffer, 0);
    if raw == Sentinel32 then Success(TimeStamp(start, None))
    else Success(TimeStamp(start, Some(Mul(Val(raw as real), tsMulFac))))
  }

  /** Encoding a raw offset and decoding it: the sentinel gives null, any other value `raw * tsMulFac`. */
  lemma FromBufferRoundTrip(raw: nat, start: DateParts, tsMulFac: Num)
    requires raw <= Sentinel32
    ensures FromBuffer(EncodeUInt32LE(raw), start, tsMulFac)
            == Success(TimeStamp(start, if raw == Sentinel32 then None
                                        else Some(Mul(Val(raw as real), tsMulFac))))
  {
    ReadEncodedUInt32([], raw, []);
    assert [] + EncodeUInt32LE(raw) + [] == EncodeUInt32LE(raw);
  }
}
