/**
 * `Data`: the binary data file cut into records of `sample_size` bytes, each
 * decoded as a `Sample`, and `getPrettyData`, which regroups the decoded values
 * by channel.
 */
module Datasets {
  import opened Failures
  import opened JsNumbers
  import opened Bytes
  import opened Channels
  import opened TimeStamps
  import opened Configurations
  import opened Samples

  /** `Math.ceil(s / 16)` for an integer `s`: the fewest 16-bit words that hold `s` bits. */
  function CeilDiv16(s: int): (q: int)
    ensures 16 * q >= s
    ensures 16 * (q - 1) < s
  {
    -((-s) / 16)
  }

  /**
   * `sample_size = 4 + 4 + analog_count * 2 + 2 * Math.ceil(status_count / 16)`,
   * computed once from the configuration; NaN (`None`) when either count is NaN.
   */
  function RecordSize(config: Configuration): (size: Option<int>)
    ensures size.Some? <==> config.analogCount.Int? && config.statusCount.Int?
  {
    match (config.analogCount, config.statusCount)
    case (Int(a), Int(s)) => Some(8 + 2 * a + 2 * CeilDiv16(s))
    case _ => None
  }

  /**
   * How many windows `for (offset = 0; offset < len; offset += size)` hands to
   * `Sample`: `ceil(len / size)` for a positive size. With a size of 0 or less
   * the offset never reaches the end, but the second window is always empty,
   * so its decoding throws and no third window is taken.
   */
  function WindowCount(len: nat, size: int): nat
    decreases if size > 0 then len else 0
  {
    if len == 0 then 0
    else if size <= 0 then 2
    else if len <= size then 1
    else 1 + WindowCount(len - size, size)
  }

  /** The offset of window `k`: `offset += size`, `k` times from 0. */
  function Offset(k: nat, size: int): int
  {
    if k == 0 then 0 else Offset(k - 1, size) + size
  }

  /** The offset of window `k` is `k * size`. */
  lemma {:induction false} OffsetIsProduct(k: nat, size: int)
    ensures Offset(k, size) == k * size
  {
    if k > 0 {
      OffsetIsProduct(k - 1, size);
      assert (k - 1) * size + size == k * size;
    }
  }

  /** Window `k`: `buffer.subarray(offset, offset + size)` at offset `k * size`, cut short at the end of the buffer. */
  function Window(buffer: seq<byte>, size: int, k: nat): seq<byte>
  {
    Subarray(buffer, Offset(k, size), Offset(k, size) + size)
  }

  /** `new Sample(window, config)`, as a function of the window. */
  function Decoder(config: Configuration): seq<byte> -> Result<Sample>
    requires ChannelsCover(config)
  {
    window => DecodeSample(window, config)
  }

  /** Applying the decoder is decoding the window as a sample. */
  lemma DecoderApplies(config: Configuration, window: seq<byte>)
    requires ChannelsCover(config)
    ensures Decoder(config)(window) == DecodeSample(window, config)
  {
  }

  /** The samples `decode` makes of the first `count` windows, in file order. */
  function Windows(decode: seq<byte> -> Result<Sample>, buffer: seq<byte>, size: int, count: nat): Result<seq<Sample>>
  {
    if count == 0 then Success([])
    else
      var previous :- Windows(decode, buffer, size, count - 1);
      var sample :- decode(Window(buffer, size, count - 1));
      Success(previous + [sample])
  }

  /**
   * `Data.Read`. With a NaN size the first pass takes `subarray(0, NaN)`, which
   * is empty, and `offset += NaN` ends the loop after it.
   */
  function DataRead(buffer: seq<byte>, config: Configuration): Result<seq<Sample>>
    requires ChannelsCover(config)
  {
    match RecordSize(config)
    case None => Windows(Decoder(config), buffer, 0, if |buffer| == 0 then 0 else 1)
    case Some(size) => Windows(Decoder(config), buffer, size, WindowCount(|buffer|, size))
  }

  /** With a positive size, offsets grow with the window number. */
  lemma {:induction false} OffsetAtLeast(k: nat, size: int)
    requires size > 0
    ensures Offset(k, size) >= 0
    ensures k > 0 ==> Offset(k, size) >= size
  {
    if k > 0 {
      OffsetAtLeast(k - 1, size);
    }
  }

  /** With a positive size, window `k` is taken exactly when its offset lies before the end. */
  lemma {:induction false} WindowsBelow(len: nat, size: int, k: nat)
    requires size > 0
    ensures k < WindowCount(len, size) <==> Offset(k, size) < len
    decreases len
  {
    OffsetAtLeast(k, size);
    if k > 0 && len > size {
      WindowsBelow(len - size, size, k - 1);
    }
  }

  /**
   * With a positive size there are `ceil(len / size)` windows: they reach the
   * end of the buffer, and the last one starts before it.
   */
  lemma WindowCountBounds(len: nat, size: int)
    requires size > 0
    ensures Offset(WindowCount(len, size), size) >= len
    ensures len > 0 ==> WindowCount(len, size) >= 1 && Offset(WindowCount(len, size) - 1, size) < len
  {
    WindowsBelow(len, size, WindowCount(len, size));
    if len > 0 {
      WindowsBelow(len, size, 0);
      WindowsBelow(len, size, WindowCount(len, size) - 1);
    }
  }

  /** One more window: its decoding either fails, ending the read, or appends its sample. */
  lemma WindowsNext(decode: seq<byte> -> Result<Sample>, buffer: seq<byte>, size: int, k: nat, samples: seq<Sample>)
    requires Windows(decode, buffer, size, k) == Success(samples)
    ensures decode(Window(buffer, size, k)).Failure? ==>
              Windows(decode, buffer, size, k + 1) == Failure(decode(Window(buffer, size, k)).error)
    ensures decode(Window(buffer, size, k)).Success? ==>
              Windows(decode, buffer, size, k + 1) == Success(samples + [decode(Window(buffer, size, k)).value])
  {
  }

  /** Once a window fails, reading more windows fails the same way. */
  lemma {:induction false} WindowsFailure(decode: seq<byte> -> Result<Sample>, buffer: seq<byte>, size: int, i: nat, count: nat)
    requires i <= count
    requires Windows(decode, buffer, size, i).Failure?
    ensures Windows(decode, buffer, size, count) == Windows(decode, buffer, size, i)
    decreases count - i
  {
    if i < count {
      WindowsFailure(decode, buffer, size, i + 1, count);
    }
  }

  /**
   * One pass of the stride loop: a window whose offset lies before the end is
   * one of the windows counted, and the next offset is one stride further.
   */
  lemma StrideStep(len: nat, size: int, k: nat)
    requires Offset(k, size) < len
    requires k <= WindowCount(len, size)
    requires size <= 0 ==> k <= 1
    ensures k < WindowCount(len, size)
    ensures Offset(k + 1, size) == Offset(k, size) + size
    ensures size > 0 ==> (k + 1 < WindowCount(len, size) <==> Offset(k + 1, size) < len)
  {
    if size > 0 {
      WindowsBelow(len, size, k);
      WindowsBelow(len, size, k + 1);
    }
  }

  /** A window that starts inside the buffer holds the next `size` bytes, or all that remain. */
  lemma WindowAt(buffer: seq<byte>, size: int, offset: int)
    requires 0 <= offset < |buffer| && size > 0
    ensures Subarray(buffer, offset, offset + size)
            == buffer[offset .. if offset + size <= |buffer| then offset + size else |buffer|]
  {
  }

  /** With a size of 0 or less, the second window is empty. */
  lemma SecondWindowEmpty(buffer: seq<byte>, size: int)
    requires size <= 0
    ensures Window(buffer, size, 1) == []
  {
    assert Offset(1, size) == size;
  }

  /**
   * The stride loop of `Data.Read`: windows at offsets 0, size, 2 * size, ...
   * while the offset lies before the end, each handed to `decode`. With a size
   * of 0 or less the offset never passes the end; the loop still ends, because
   * the second window is empty and an empty window does not decode.
   */
  method ReadWindows(decode: seq<byte> -> Result<Sample>, buffer: seq<byte>, size: int) returns (r: Result<seq<Sample>>)
    requires decode([]).Failure?
    ensures r == Windows(decode, buffer, size, WindowCount(|buffer|, size))
  {
    var samples: seq<Sample> := [];
    var offset := 0;
    var k := 0;
    while offset < |buffer|
      invariant offset == Offset(k, size)
      invariant k <= WindowCount(|buffer|, size)
      invariant size > 0 ==> (k < WindowCount(|buffer|, size) <==> offset < |buffer|)
      invariant size <= 0 ==> k <= 1 && offset <= 0
      invariant Windows(decode, buffer, size, k) == Success(samples)
      decreases WindowCount(|buffer|, size) - k
    {
      StrideStep(|buffer|, size, k);
      WindowsNext(decode, buffer, size, k, samples);
      if size <= 0 && k == 1 {
        SecondWindowEmpty(buffer, size);
      }
      var sampleBuffer := Subarray(buffer, offset, offset + size);
      var sample := decode(sampleBuffer);
      if sample.Failure? {
        WindowsFailure(decode, buffer, size, k + 1, WindowCount(|buffer|, size));
        return Failure(sample.error);
      }
      samples := samples + [sample.value];
      offset := offset + size;
      k := k + 1;
    }
    r := Success(samples);
  }

  /** `Data.Read`: the record size, then the stride loop with `new Sample(window, config)` as the decoder. */
  method ReadData(buffer: seq<byte>, config: Configuration) returns (r: Result<seq<Sample>>)
    requires ChannelsCover(config)
    ensures r == DataRead(buffer, config)
  {
    var decode := Decoder(config);
    DecoderApplies(config, []);
    var sampleSize := RecordSize(config);
    if sampleSize.None? {
      r := ReadWindows(decode, buffer, 0);
      if |buffer| > 0 {
        WindowsNext(decode, buffer, 0, 0, []);
        WindowsFailure(decode, buffer, 0, 1, 2);
        SecondWindowEmpty(buffer, 0);
      }
      return;
    }
    r := ReadWindows(decode, buffer, sampleSize.value);
  }

  /** Successful windows give one sample per window. */
  lemma {:induction false} WindowsLength(decode: seq<byte> -> Result<Sample>, buffer: seq<byte>, size: int, count: nat)
    requires Windows(decode, buffer, size, count).Success?
    ensures |Windows(decode, buffer, size, count).value| == count
  {
    if count > 0 {
      WindowsLength(decode, buffer, size, count - 1);
    }
  }

  /** Sample `k` of successful windows is the one window `k` decodes to. */
  lemma {:induction false} WindowsEntry(decode: seq<byte> -> Result<Sample>, buffer: seq<byte>, size: int, count: nat, k: nat)
    requires k < count
    requires Windows(decode, buffer, size, count).Success?
    ensures |Windows(decode, buffer, size, count).value| == count
    ensures decode(Window(buffer, size, k)) == Success(Windows(decode, buffer, size, count).value[k])
  {
    WindowsLength(decode, buffer, size, count);
    WindowsLength(decode, buffer, size, count - 1);
    var previous := Windows(decode, buffer, size, count - 1).value;
    var all := Windows(decode, buffer, size, count).value;
    assert all == previous + [decode(Window(buffer, size, count - 1)).value];
    if k < count - 1 {
      WindowsEntry(decode, buffer, size, count - 1, k);
      assert all[k] == previous[k];
    }
  }

  /**
   * Sample `k` of a successful read with a positive size is the decoding of
   * window `k`: the bytes from offset `k * size` (`Offset(k, size)`, see
   * `OffsetIsProduct`) to one stride further, cut short at the end of the
   * buffer; the window starts before the end.
   */
  lemma DataReadSample(buffer: seq<byte>, config: Configuration, size: int, k: nat)
    requires ChannelsCover(config)
    requires RecordSize(config) == Some(size) && size > 0
    requires DataRead(buffer, config).Success?
    requires k < |DataRead(buffer, config).value|
    ensures 0 <= Offset(k, size) < |buffer|
    ensures DecodeSample(Window(buffer, size, k), config) == Success(DataRead(buffer, config).value[k])
    ensures Window(buffer, size, k)
            == buffer[Offset(k, size) .. if Offset(k, size) + size <= |buffer| then Offset(k, size) + size else |buffer|]
  {
    var count := WindowCount(|buffer|, size);
    DataReadCount(buffer, config, size);
    WindowsEntry(Decoder(config), buffer, size, count, k);
    WindowsBelow(|buffer|, size, k);
    OffsetAtLeast(k, size);
    WindowAt(buffer, size, Offset(k, size));
    DecoderApplies(config, Window(buffer, size, k));
  }

  /**
   * The last window is `len - Offset(n - 1)` bytes long, and shorter than a
   * record exactly when the length is not `n` records.
   */
  lemma LastWindow(buffer: seq<byte>, size: int)
    requires size > 0 && |buffer| > 0
    ensures var n := WindowCount(|buffer|, size);
            n >= 1 &&
            |Window(buffer, size, n - 1)| == |buffer| - Offset(n - 1, size) &&
            (|Window(buffer, size, n - 1)| < size <==> |buffer| != Offset(n, size))
  {
    var n := WindowCount(|buffer|, size);
    WindowCountBounds(|buffer|, size);
    OffsetAtLeast(n - 1, size);
    var o := Offset(n - 1, size);
    assert Offset(n, size) == o + size;
    WindowAt(buffer, size, o);
    assert |Window(buffer, size, n - 1)| == |buffer| - o;
  }

  /**
   * A successful read with a record size decodes exactly the windows the
   * stride loop takes: `ceil(len / size)` of them for a positive size, the
   * last one starting before the end of the buffer and the next offset past it.
   */
  lemma DataReadCount(buffer: seq<byte>, config: Configuration, size: int)
    requires ChannelsCover(config)
    requires RecordSize(config) == Some(size)
    requires DataRead(buffer, config).Success?
    ensures |DataRead(buffer, config).value| == WindowCount(|buffer|, size)
    ensures size > 0 ==> Offset(|DataRead(buffer, config).value|, size) >= |buffer|
    ensures size > 0 && |buffer| > 0 ==>
              |DataRead(buffer, config).value| >= 1
              && Offset(|DataRead(buffer, config).value| - 1, size) < |buffer|
  {
    WindowsLength(Decoder(config), buffer, size, WindowCount(|buffer|, size));
    if size > 0 {
      WindowCountBounds(|buffer|, size);
    }
  }

  /**
   * With a NaN size, or a size of 0 or less, a non-empty data file never
   * decodes: the first or second window is empty and too short for the
   * sample number.
   */
  lemma DataReadWithoutStride(buffer: seq<byte>, config: Configuration)
    requires ChannelsCover(config)
    requires RecordSize(config).None? || RecordSize(config).value <= 0
    requires |buffer| > 0
    ensures DataRead(buffer, config).Failure?
  {
    if RecordSize(config).None? {
      assert Window(buffer, 0, 0) == [];
    } else {
      var size := RecordSize(config).value;
      var decode := Decoder(config);
      SecondWindowEmpty(buffer, size);
      if Windows(decode, buffer, size, 1).Success? {
        WindowsNext(decode, buffer, size, 1, Windows(decode, buffer, size, 1).value);
      }
    }
  }

  /**
   * A record of exactly `sample_size` bytes, with non-negative counts, always
   * decodes: every analog word and every status word lies inside it.
   */
  lemma FullRecordDecodes(buffer: seq<byte>, config: Configuration, a: nat, s: nat)
    requires ChannelsCover(config)
    requires config.analogCount == Int(a) && config.statusCount == Int(s)
    requires |buffer| == RecordSize(config).value
    ensures DecodeSample(buffer, config).Success?
    ensures |DecodeSample(buffer, config).value.analogData| == a
    ensures |DecodeSample(buffer, config).value.statusData| == EntryCount(s, CeilDiv16(s))
  {
    var start := 8 + 2 * a;
    var words := CeilDiv16(s);
    RecordWords(|buffer|, a, s);
    AnalogValuesSuccess(Scaled, buffer, config.analogChannels, a);
    StatusWordsSuccess(buffer, start, s, words);
    StatusWordsLength(buffer, start, s, words);
    SampleParts(buffer, config);
  }

  /** A record of `sample_size` bytes holds exactly `ceil(S / 16)` status words after its analog words. */
  lemma RecordWords(len: nat, a: nat, s: nat)
    requires len == 8 + 2 * a + 2 * CeilDiv16(s)
    ensures CeilDiv16(s) >= 0
    ensures WordCount(len, 8 + 2 * a) == CeilDiv16(s)
  {
    var words := CeilDiv16(s);
    if words > 0 {
      assert (2 * words + 1) / 2 == words;
    }
  }

  /**
   * With no analog channel and 16 status channels records are 10 bytes; an
   * 18-byte file gives two samples, the second cut from an 8-byte tail that
   * holds no status word, so it has no status entries at all.
   */
  lemma ShortTailExample(buffer: seq<byte>, config: Configuration)
    requires config.analogCount == Int(0) && config.statusCount == Int(16)
    requires |buffer| == 18
    ensures ChannelsCover(config)
    ensures RecordSize(config) == Some(10)
    ensures DataRead(buffer, config).Success?
    ensures |DataRead(buffer, config).value| == 2
    ensures |DataRead(buffer, config).value[0].statusData| == 16
    ensures DataRead(buffer, config).value[1].statusData == []
  {
    var decode := Decoder(config);
    assert RecordSize(config) == Some(10);
    assert WindowCount(18, 10) == 2;
    var first := Window(buffer, 10, 0);
    var second := Window(buffer, 10, 1);
    assert |first| == 10 && |second| == 8;
    FullRecordDecodes(first, config, 0, 16);
    assert EntryCount(16, 1) == 16;
    var s0 := DecodeSample(first, config).value;
    assert WordCount(8, 8) == 0;
    assert StatusData(second, config) == Success([]);
    SampleParts(second, config);
    var s1 := DecodeSample(second, config).value;
    DecoderApplies(config, first);
    DecoderApplies(config, second);
    assert Windows(decode, buffer, 10, 0) == Success([]);
    assert decode(Window(buffer, 10, 0)) == Success(s0);
    WindowsNext(decode, buffer, 10, 0, []);
    assert [] + [s0] == [s0];
    assert Windows(decode, buffer, 10, 1) == Success([s0]);
    assert decode(Window(buffer, 10, 1)) == Success(s1);
    WindowsNext(decode, buffer, 10, 1, [s0]);
    assert [s0] + [s1] == [s0, s1];
    assert Windows(decode, buffer, 10, 2) == Success([s0, s1]);
  }

  /** One series of `getPrettyData`: a channel's id and its value in every sample, in sample order. */
  datatype Series<T> = Series(name: string, data: seq<ChannelValue<T>>)

  /** What `getPrettyData` returns. */
  datatype PrettyData = PrettyData(analogChannels: seq<Series<Num>>, statusChannels: seq<Series<nat>>)

  /** The series of an analog channel: `sample.getAnalogValue(channel.n)` for every sample. */
  function AnalogSeries(channel: AnalogChannel, samples: seq<Sample>): Series<Num>
  {
    Series(channel.chId, seq(|samples|, k requires 0 <= k < |samples| => GetAnalogValue(samples[k], channel.n)))
  }

  /** The series of a status channel: `sample.getStatusValue(channel.n)` for every sample. */
  function StatusSeries(channel: StatusChannel, samples: seq<Sample>): Series<nat>
  {
    Series(channel.chId, seq(|samples|, k requires 0 <= k < |samples| => GetStatusValue(samples[k], channel.n)))
  }

  /** `getPrettyData`: one series per configured channel, analog then status, in configuration order. */
  function Pretty(config: Configuration, samples: seq<Sample>): PrettyData
  {
    PrettyData(
      seq(|config.analogChannels|, i requires 0 <= i < |config.analogChannels| =>
        AnalogSeries(config.analogChannels[i], samples)),
      seq(|config.statusChannels|, i requires 0 <= i < |config.statusChannels| =>
        StatusSeries(config.statusChannels[i], samples)))
  }

  /** The inner `forEach` for an analog channel. */
  method CollectAnalog(channel: AnalogChannel, samples: seq<Sample>) returns (series: Series<Num>)
    ensures series == AnalogSeries(channel, samples)
  {
    var data: seq<ChannelValue<Num>> := [];
    var k := 0;
    while k < |samples|
      invariant k <= |samples|
      invariant data == AnalogSeries(channel, samples[..k]).data
    {
      data := data + [GetAnalogValue(samples[k], channel.n)];
      k := k + 1;
    }
    assert samples[..k] == samples;
    series := Series(channel.chId, data);
  }

  /** The inner `forEach` for a status channel. */
  method CollectStatus(channel: StatusChannel, samples: seq<Sample>) returns (series: Series<nat>)
    ensures series == StatusSeries(channel, samples)
  {
    var data: seq<ChannelValue<nat>> := [];
    var k := 0;
    while k < |samples|
      invariant k <= |samples|
      invariant data == StatusSeries(channel, samples[..k]).data
    {
      data := data + [GetStatusValue(samples[k], channel.n)];
      k := k + 1;
    }
    assert samples[..k] == samples;
    series := Series(channel.chId, data);
  }

  /** `getPrettyData`: the two outer `forEach` loops over the configured channels. */
  method GetPrettyData(config: Configuration, samples: seq<Sample>) returns (r: PrettyData)
    ensures r == Pretty(config, samples)
  {
    var analogChannelsData: seq<Series<Num>> := [];
    var i := 0;
    while i < |config.analogChannels|
      invariant i <= |config.analogChannels|
      invariant analogChannelsData == Pretty(config, samples).analogChannels[..i]
    {
      var channelData := CollectAnalog(config.analogChannels[i], samples);
      analogChannelsData := analogChannelsData + [channelData];
      i := i + 1;
    }
    var statusChannelsData: seq<Series<nat>> := [];
    i := 0;
    while i < |config.statusChannels|
      invariant i <= |config.statusChannels|
      invariant statusChannelsData == Pretty(config, samples).statusChannels[..i]
    {
      var channelData := CollectStatus(config.statusChannels[i], samples);
      statusChannelsData := statusChannelsData + [channelData];
      i := i + 1;
    }
    r := PrettyData(analogChannelsData, statusChannelsData);
  }

  /**
   * The pretty data has one series per configured channel, named by the
   * channel's id, each with one entry per sample; when analog channel `i` is
   * numbered `i + 1`, entry `k` of its series is value `i` of sample `k`, with
   * that sample's time.
   */
  lemma PrettyAnalogAligned(config: Configuration, samples: seq<Sample>, i: nat, k: nat)
    requires i < |config.analogChannels| && k < |samples|
    requires config.analogChannels[i].n == NatToDecimal(i + 1)
    requires i < |samples[k].analogData|
    ensures |Pretty(config, samples).analogChannels| == |config.analogChannels|
    ensures Pretty(config, samples).analogChannels[i].name == config.analogChannels[i].chId
    ensures |Pretty(config, samples).analogChannels[i].data| == |samples|
    ensures Pretty(config, samples).analogChannels[i].data[k]
            == ChannelValue(samples[k].timestamp.time, samples[k].timestamp.timeMicroseconds,
                            Some(samples[k].analogData[i]))
  {
    GetAnalogValueOfNumber(samples[k], i + 1);
  }

  /** The same for status channel `i` numbered `i + 1` and entry `i` of sample `k`'s status data. */
  lemma PrettyStatusAligned(config: Configuration, samples: seq<Sample>, i: nat, k: nat)
    requires i < |config.statusChannels| && k < |samples|
    requires config.statusChannels[i].n == NatToDecimal(i + 1)
    requires i < |samples[k].statusData|
    ensures |Pretty(config, samples).statusChannels| == |config.statusChannels|
    ensures Pretty(config, samples).statusChannels[i].name == config.statusChannels[i].chId
    ensures |Pretty(config, samples).statusChannels[i].data| == |samples|
    ensures Pretty(config, samples).statusChannels[i].data[k]
            == ChannelValue(samples[k].timestamp.time, samples[k].timestamp.timeMicroseconds,
                            Some(samples[k].statusData[i]))
  {
    GetStatusValueOfNumber(samples[k], i + 1);
  }
}
