/**
 * `Sample`: one data record of a binary data file. `Sample.Read` takes the
 * little-endian u32 sample number at offset 0, the u32 time stamp at offset 4,
 * one signed 16-bit word per analog channel from offset 8 on, and then every
 * remaining 16-bit word as a word of status bits, least significant bit first.
 */
module Samples {
  import opened Failures
  import opened JsNumbers
  import opened Bytes
  import opened Channels
  import opened TimeStamps
  import opened Configurations

  /** A decoded record; every entry of `statusData` is 0 or 1. */
  datatype Sample = Sample(sampleNumber: nat, timestamp: TimeStamp, analogData: seq<Num>, statusData: seq<nat>)

  /**
   * The configuration has a channel for every analog word the count asks for,
   * so `analog_channels[p]` is defined; every configuration the parser returns
   * has this (`ParsedConfigurationCovers`).
   */
  predicate ChannelsCover(config: Configuration)
  {
    LoopCount(config.analogCount) <= |config.analogChannels|
  }

  /** Two to the power `k`. */
  function Pow2(k: nat): (p: nat)
    ensures p >= 1
  {
    if k == 0 then 1 else 2 * Pow2(k - 1)
  }

  /** Bit `k` of `w`, counting from the least significant bit. */
  function BitAt(w: nat, k: nat): (b: nat)
    ensures b < 2
  {
    if k == 0 then w % 2 else BitAt(w / 2, k - 1)
  }

  /** `(w >> j) & 1`: JavaScript shifts by `j` modulo 32. */
  function Bit(w: nat, j: nat): (b: nat)
    ensures b < 2
  {
    BitAt(w, j % 32)
  }

  /** `parseFloat(a) * raw + parseFloat(b)`, the value of an analog word `raw` for a channel. */
  function Scaled(channel: AnalogChannel, raw: int): (v: Num)
    ensures v.Val? <==> ParseFloat(channel.a).Val? && ParseFloat(channel.b).Val?
    ensures v.Val? ==> v.r == ParseFloat(channel.a).r * raw as real + ParseFloat(channel.b).r
  {
    Affine(ParseFloat(channel.a), raw, ParseFloat(channel.b))
  }

  /** `a * raw + b` in JavaScript arithmetic: NaN when a factor is. */
  function Affine(a: Num, raw: int, b: Num): (v: Num)
    ensures v.Val? <==> a.Val? && b.Val?
    ensures v.Val? ==> v.r == a.r * raw as real + b.r
  {
    Add(Mul(a, Val(raw as real)), b)
  }

  /** The first `count` analog values: word `i` at offset `8 + 2i`, scaled by channel `i`. */
  function AnalogValues(scale: (AnalogChannel, int) -> Num, buffer: seq<byte>, channels: seq<AnalogChannel>, count: nat)
    : Result<seq<Num>>
    requires count <= |channels|
  {
    if count == 0 then Success([])
    else
      var previous :- AnalogValues(scale, buffer, channels, count - 1);
      var raw :- ReadInt16LE(buffer, 8 + 2 * (count - 1));
      Success(previous + [scale(channels[count - 1], raw)])
  }

  /** Where the status words start, `8 + 2 * analog_count`; with a NaN count the loop does not run. */
  function StatusOffset(analogCount: ParsedInt): Option<int>
  {
    match analogCount
    case IntNaN => None
    case Int(a) => Some(8 + 2 * a)
  }

  /** How many times `for (i = start; i < len; i += 2)` runs. */
  function WordCount(len: nat, start: int): nat
  {
    if start >= len then 0 else (len - start + 1) / 2
  }

  /**
   * The entries word `p` adds: the inner loop runs while `16p + j < S`, with no
   * bound of 16, so it adds `S - 16p` bits when that is positive.
   */
  function WordEntries(w: nat, p: nat, statusCount: nat): (bits: seq<nat>)
    ensures |bits| == if statusCount > 16 * p then statusCount - 16 * p else 0
    ensures forall j :: 0 <= j < |bits| ==> bits[j] == Bit(w, j)
  {
    seq(if statusCount > 16 * p then statusCount - 16 * p else 0, j requires 0 <= j => Bit(w, j))
  }

  /** Status word `p` of a record whose status words start at `start` (0 when it lies outside the buffer). */
  function WordAt(buffer: seq<byte>, start: int, p: nat): (w: nat)
    ensures w < 0x1_0000
    ensures ReadUInt16LE(buffer, start + 2 * p).Success? ==> w == ReadUInt16LE(buffer, start + 2 * p).value
  {
    match ReadUInt16LE(buffer, start + 2 * p)
    case Success(w) => w
    case Failure(_) => 0
  }

  /** The entries of the first `count` status words, read from offset `start` on. */
  function StatusWords(buffer: seq<byte>, start: int, statusCount: nat, count: nat): Result<seq<nat>>
  {
    if count == 0 then Success([])
    else
      var previous :- StatusWords(buffer, start, statusCount, count - 1);
      var word :- ReadUInt16LE(buffer, start + 2 * (count - 1));
      Success(previous + WordEntries(word, count - 1, statusCount))
  }

  /** The status entries of a record: every word from the status offset to the end of the buffer. */
  function StatusData(buffer: seq<byte>, config: Configuration): Result<seq<nat>>
  {
    match StatusOffset(config.analogCount)
    case None => Success([])
    case Some(start) =>
      StatusWords(buffer, start, LoopCount(config.statusCount), WordCount(|buffer|, start))
  }

  /** `new Sample(buffer, config)`. */
  function DecodeSample(buffer: seq<byte>, config: Configuration): (r: Result<Sample>)
    requires ChannelsCover(config)
    ensures |buffer| < 8 ==> r == Failure(OutOfRange(0))
    ensures r.Success? ==> r.value.sampleNumber == ReadUInt32LE(buffer, 0).value
    ensures r.Success? ==>
              r.value.timestamp == FromBuffer(buffer[4..8], config.startTimestamp, config.tsMulFac).value
  {
    var sampleNumber :- ReadUInt32LE(buffer, 0);
    var timestamp :- FromBuffer(Subarray(buffer, 4, 8), config.startTimestamp, config.tsMulFac);
    var analogData :- AnalogValues(Scaled, buffer, config.analogChannels, LoopCount(config.analogCount));
    var statusData :- StatusData(buffer, config);
    Success(Sample(sampleNumber, timestamp, analogData, statusData))
  }

  /** Every configuration the parser returns has a channel for every counted analog word. */
  lemma ParsedConfigurationCovers(text: string, c: Configuration)
    requires ParseConfiguration(text) == Success(c)
    ensures ChannelsCover(c)
    ensures |c.analogChannels| == LoopCount(c.analogCount)
  {
    ConfigurationChannels(Text.SplitLines(text), c);
  }

  /** Once the analog values fail, reading more of them fails the same way. */
  lemma {:induction false} AnalogValuesFailure(scale: (AnalogChannel, int) -> Num, buffer: seq<byte>, channels: seq<AnalogChannel>, i: nat, count: nat)
    requires i <= count <= |channels|
    requires AnalogValues(scale, buffer, channels, i).Failure?
    ensures AnalogValues(scale, buffer, channels, count) == AnalogValues(scale, buffer, channels, i)
    decreases count - i
  {
    if i < count {
      AnalogValuesFailure(scale, buffer, channels, i + 1, count);
    }
  }

  /** The analog values succeed exactly when every word lies in the buffer. */
  lemma {:induction false} AnalogValuesSuccess(scale: (AnalogChannel, int) -> Num, buffer: seq<byte>, channels: seq<AnalogChannel>, count: nat)
    requires count <= |channels|
    ensures AnalogValues(scale, buffer, channels, count).Success? <==> count == 0 || 8 + 2 * count <= |buffer|
    ensures AnalogValues(scale, buffer, channels, count).Success? ==> |AnalogValues(scale, buffer, channels, count).value| == count
  {
    if count > 0 {
      AnalogValuesSuccess(scale, buffer, channels, count - 1);
    }
  }

  /** Value `i` of successful analog values is word `i` scaled by channel `i`. */
  lemma {:induction false} AnalogValuesEntry(scale: (AnalogChannel, int) -> Num, buffer: seq<byte>, channels: seq<AnalogChannel>, count: nat, i: nat)
    requires i < count <= |channels|
    requires AnalogValues(scale, buffer, channels, count).Success?
    ensures |AnalogValues(scale, buffer, channels, count).value| == count
    ensures ReadInt16LE(buffer, 8 + 2 * i).Success?
    ensures AnalogValues(scale, buffer, channels, count).value[i]
            == scale(channels[i], ReadInt16LE(buffer, 8 + 2 * i).value)
  {
    AnalogValuesSuccess(scale, buffer, channels, count);
    AnalogValuesSuccess(scale, buffer, channels, count - 1);
    if i < count - 1 {
      AnalogValuesEntry(scale, buffer, channels, count - 1, i);
      var previous := AnalogValues(scale, buffer, channels, count - 1).value;
      assert AnalogValues(scale, buffer, channels, count).value[i] == previous[i];
    }
  }

  /** Successful analog values: value `i` is word `i` scaled by channel `i`. */
  lemma AnalogValuesContents(scale: (AnalogChannel, int) -> Num, buffer: seq<byte>, channels: seq<AnalogChannel>, count: nat)
    requires count <= |channels|
    requires AnalogValues(scale, buffer, channels, count).Success?
    ensures |AnalogValues(scale, buffer, channels, count).value| == count
    ensures forall i :: 0 <= i < count ==>
              AnalogValues(scale, buffer, channels, count).value[i]
              == scale(channels[i], ReadInt16LE(buffer, 8 + 2 * i).value)
  {
    AnalogValuesSuccess(scale, buffer, channels, count);
    forall i | 0 <= i < count
      ensures AnalogValues(scale, buffer, channels, count).value[i]
              == scale(channels[i], ReadInt16LE(buffer, 8 + 2 * i).value)
    {
      AnalogValuesEntry(scale, buffer, channels, count, i);
    }
  }

  /** Once the status words fail, reading more of them fails the same way. */
  lemma {:induction false} StatusWordsFailure(buffer: seq<byte>, start: int, statusCount: nat, i: nat, count: nat)
    requires i <= count
    requires StatusWords(buffer, start, statusCount, i).Failure?
    ensures StatusWords(buffer, start, statusCount, count) == StatusWords(buffer, start, statusCount, i)
    decreases count - i
  {
    if i < count {
      StatusWordsFailure(buffer, start, statusCount, i + 1, count);
    }
  }

  /** `Σ_{p < count} max(0, S - 16p)`: the number of status entries `count` words yield. */
  function EntryCount(statusCount: nat, count: nat): nat
  {
    if count == 0 then 0
    else EntryCount(statusCount, count - 1)
         + (if statusCount > 16 * (count - 1) then statusCount - 16 * (count - 1) else 0)
  }

  /** Successful status words yield `Σ_p max(0, S - 16p)` entries. */
  lemma {:induction false} StatusWordsLength(buffer: seq<byte>, start: int, statusCount: nat, count: nat)
    requires StatusWords(buffer, start, statusCount, count).Success?
    ensures |StatusWords(buffer, start, statusCount, count).value| == EntryCount(statusCount, count)
  {
    if count > 0 {
      StatusWordsLength(buffer, start, statusCount, count - 1);
    }
  }

  /**
   * Entry `j` of word `p` sits at `EntryCount(S, p) + j` and is bit `j` (taken
   * modulo 32) of the word at `start + 2p`.
   */
  lemma {:induction false} StatusWordsEntry(buffer: seq<byte>, start: int, statusCount: nat, count: nat, p: nat, j: nat)
    requires StatusWords(buffer, start, statusCount, count).Success?
    requires p < count && 16 * p + j < statusCount
    ensures EntryCount(statusCount, p) + j < |StatusWords(buffer, start, statusCount, count).value|
    ensures StatusWords(buffer, start, statusCount, count).value[EntryCount(statusCount, p) + j]
            == Bit(WordAt(buffer, start, p), j)
  {
    StatusWordsLength(buffer, start, statusCount, count);
    StatusWordsLength(buffer, start, statusCount, count - 1);
    var previous := StatusWords(buffer, start, statusCount, count - 1).value;
    var word := ReadUInt16LE(buffer, start + 2 * (count - 1)).value;
    var all := StatusWords(buffer, start, statusCount, count).value;
    assert all == previous + WordEntries(word, count - 1, statusCount);
    var k := EntryCount(statusCount, p) + j;
    if p < count - 1 {
      StatusWordsEntry(buffer, start, statusCount, count - 1, p, j);
      assert all[k] == previous[k];
    } else {
      assert WordAt(buffer, start, p) == word;
      assert all[k] == WordEntries(word, p, statusCount)[j];
    }
  }

  /** The entry count never shrinks as words are added. */
  lemma {:induction false} EntryCountGrows(statusCount: nat, i: nat, count: nat)
    requires i <= count
    ensures EntryCount(statusCount, i) <= EntryCount(statusCount, count)
    decreases count - i
  {
    if i < count {
      EntryCountGrows(statusCount, i, count - 1);
    }
  }

  /** Bits at or above the width of `w` are 0. */
  lemma {:induction false} BitAtZero(w: nat, k: nat)
    requires w < Pow2(k)
    ensures BitAt(w, k) == 0
  {
    if k > 0 {
      BitAtZero(w / 2, k - 1);
    }
  }

  /** Powers of two grow with the exponent. */
  lemma {:induction false} Pow2Grows(i: nat, k: nat)
    requires i <= k
    ensures Pow2(i) <= Pow2(k)
    decreases k - i
  {
    if i < k {
      Pow2Grows(i, k - 1);
    }
  }

  /** Shifting a 16-bit word by 16 to 31 places leaves 0, so the extra entries of an overrun are 0. */
  lemma HighBitsZero(w: nat, j: nat)
    requires w < 0x1_0000
    requires 16 <= j % 32
    ensures Bit(w, j) == 0
  {
    Pow2Grows(16, j % 32);
    assert Pow2(4) == 16;
    assert Pow2(8) == 0x100;
    assert Pow2(12) == 0x1000;
    assert Pow2(16) == 0x1_0000;
    BitAtZero(w, j % 32);
  }

  /** A product with a positive factor is at least the other factor. */
  lemma {:induction false} MulAtLeast(d: nat, x: nat)
    requires x >= 1
    ensures d * x >= d
  {
    if x > 1 {
      MulAtLeast(d, x - 1);
      assert d * x == d * (x - 1) + d;
    }
  }

  /** The quotient is the unique `q` with `w == d * q + r` and `0 <= r < d`. */
  lemma DivUnique(w: nat, d: nat, q: nat, r: nat)
    requires d > 0 && 0 <= r < d
    requires w == d * q + r
    ensures w / d == q
  {
    var q' := w / d;
    var r' := w % d;
    assert w == d * q' + r' && 0 <= r' < d;
    if q' > q {
      MulAtLeast(d, q' - q);
      assert false;
    } else if q' < q {
      MulAtLeast(d, q - q');
      assert false;
    }
  }

  /** Multiplication distributes over addition. */
  lemma MulDistributes(a: int, x: int, y: int)
    ensures a * (x + y) == a * x + a * y
  {
  }

  /** Multiplication is associative. */
  lemma MulAssociates(a: int, b: int, c: int)
    ensures a * (b * c) == (a * b) * c
  {
  }

  /** Multiplying by a natural number keeps the order. */
  lemma MulMonotone(a: nat, x: nat, y: nat)
    requires x <= y
    ensures a * x <= a * y
  {
    MulDistributes(a, x, y - x);
  }

  /** `a * (b * q + r2) + r1` regrouped as a multiple of `a * b` and a remainder below `a * b`. */
  lemma Regroup(a: nat, b: nat, q: nat, r2: nat, r1: nat)
    requires r1 < a && r2 < b
    ensures a * (b * q + r2) + r1 == (a * b) * q + (a * r2 + r1)
    ensures a * r2 + r1 < a * b
  {
    MulDistributes(a, b * q, r2);
    MulAssociates(a, b, q);
    MulMonotone(a, r2 + 1, b);
    MulDistributes(a, r2, 1);
  }

  /** When `w == a * q1 + r1` and `q1 == b * q2 + r2` with both remainders in range, `w / (a * b)` is `q2`. */
  lemma QuotientOfQuotient(w: nat, a: nat, b: nat, q1: nat, r1: nat, q2: nat, r2: nat)
    requires a > 0 && b > 0 && r1 < a && r2 < b
    requires w == a * q1 + r1 && q1 == b * q2 + r2
    ensures w / (a * b) == q2
  {
    Regroup(a, b, q2, r2, r1);
    DivUnique(w, a * b, q2, a * r2 + r1);
  }

  /** Dividing by `a` and then by `b` is dividing by `a * b`. */
  lemma DivDiv(w: nat, a: nat, b: nat)
    requires a > 0 && b > 0
    ensures w / (a * b) == (w / a) / b
  {
    QuotientOfQuotient(w, a, b, w / a, w % a, (w / a) / b, (w / a) % b);
  }

  /** Bit `k` of `w` is `floor(w / 2^k) mod 2`. */
  lemma {:induction false} BitAtIsDivision(w: nat, k: nat)
    ensures BitAt(w, k) == (w / Pow2(k)) % 2
  {
    if k > 0 {
      BitAtIsDivision(w / 2, k - 1);
      DivDiv(w, 2, Pow2(k - 1));
    }
  }

  /**
   * `(w >> j) & 1` for a non-negative word `w`: `floor(w / 2^(j mod 32)) mod 2`,
   * JavaScript taking the shift count modulo 32.
   */
  lemma BitIsShift(w: nat, j: nat)
    ensures Bit(w, j) == (w / Pow2(j % 32)) % 2
  {
    BitAtIsDivision(w, j % 32);
  }

  /** The low three bits of `0x0005`, least significant first. */
  lemma BitsOfFive()
    ensures Bit(5, 0) == 1 && Bit(5, 1) == 0 && Bit(5, 2) == 1
  {
    assert BitAt(5, 1) == BitAt(2, 0);
    assert BitAt(5, 2) == BitAt(2, 1) == BitAt(1, 0);
  }

  /** A record of a header and one status word, with no analog channel, decodes. */
  lemma OneWordRecordDecodes(buffer: seq<byte>, config: Configuration)
    requires |buffer| == 10
    requires config.analogCount == Int(0)
    ensures ChannelsCover(config)
    ensures DecodeSample(buffer, config).Success?
  {
    SampleParts(buffer, config);
    assert WordCount(|buffer|, 8) == 1;
    StatusWordsSuccess(buffer, 8, LoopCount(config.statusCount), 1);
  }

  /**
   * Three status channels, no analog channel, and the status word `0x0005`:
   * channels 1, 2 and 3 read 1, 0 and 1.
   */
  lemma StatusWordExample(header: seq<byte>, config: Configuration)
    requires |header| == 8
    requires config.analogCount == Int(0) && config.statusCount == Int(3)
    ensures ChannelsCover(config)
    ensures DecodeSample(header + [0x05, 0x00], config).Success?
    ensures DecodeSample(header + [0x05, 0x00], config).value.statusData == [1, 0, 1]
  {
    var buffer := header + [0x05, 0x00];
    OneWordRecordDecodes(buffer, config);
    SampleStatusOneWord(buffer, config, 0);
    assert buffer[8] == 5 && buffer[9] == 0;
    assert ReadUInt16LE(buffer, 8).value == 5;
    BitsOfFive();
    var entries := DecodeSample(buffer, config).value.statusData;
    assert |entries| == 3;
    assert entries[0] == 1 && entries[1] == 0 && entries[2] == 1;
  }

  /** The entries of a word grow by one bit each time the inner loop runs. */
  lemma WordEntriesNext(w: nat, p: nat, j: nat)
    ensures WordEntries(w, p, 16 * p + j + 1) == WordEntries(w, p, 16 * p + j) + [Bit(w, j)]
  {
    var longer := WordEntries(w, p, 16 * p + j + 1);
    var shorter := WordEntries(w, p, 16 * p + j);
    assert forall k :: 0 <= k < |longer| ==> longer[k] == (shorter + [Bit(w, j)])[k];
  }

  /** When the inner loop stops, the bits pushed are the entries of the word. */
  lemma WordEntriesDone(w: nat, p: nat, j: nat, statusCount: nat)
    requires j == 0 || 16 * p + j <= statusCount
    requires 16 * p + j >= statusCount
    ensures WordEntries(w, p, 16 * p + j) == WordEntries(w, p, statusCount)
  {
    var pushed := WordEntries(w, p, 16 * p + j);
    var all := WordEntries(w, p, statusCount);
    assert |pushed| == |all|;
    assert forall k :: 0 <= k < |pushed| ==> pushed[k] == all[k];
  }

  /** One more analog word: the read either fails, ending the values, or appends the scaled value. */
  lemma AnalogValuesNext(scale: (AnalogChannel, int) -> Num, buffer: seq<byte>, channels: seq<AnalogChannel>, p: nat, values: seq<Num>)
    requires p < |channels|
    requires AnalogValues(scale, buffer, channels, p) == Success(values)
    ensures ReadInt16LE(buffer, 8 + 2 * p).Failure? ==>
              AnalogValues(scale, buffer, channels, p + 1) == Failure(ReadInt16LE(buffer, 8 + 2 * p).error)
    ensures ReadInt16LE(buffer, 8 + 2 * p).Success? ==>
              AnalogValues(scale, buffer, channels, p + 1)
              == Success(values + [scale(channels[p], ReadInt16LE(buffer, 8 + 2 * p).value)])
  {
  }

  /** One more status word: the read either fails, ending the entries, or appends the word's entries. */
  lemma StatusWordsNext(buffer: seq<byte>, start: int, statusCount: nat, p: nat, entries: seq<nat>)
    requires StatusWords(buffer, start, statusCount, p) == Success(entries)
    ensures ReadUInt16LE(buffer, start + 2 * p).Failure? ==>
              StatusWords(buffer, start, statusCount, p + 1) == Failure(ReadUInt16LE(buffer, start + 2 * p).error)
    ensures ReadUInt16LE(buffer, start + 2 * p).Success? ==>
              StatusWords(buffer, start, statusCount, p + 1)
              == Success(entries + WordEntries(ReadUInt16LE(buffer, start + 2 * p).value, p, statusCount))
  {
  }

  /** How many words the status loop reads, from its exit condition. */
  lemma WordCountExit(len: nat, start: int, p: nat)
    requires p == 0 || start + 2 * (p - 1) < len
    requires start + 2 * p >= len
    ensures WordCount(len, start) == p
  {
  }

  /** The analog loop of `Sample.Read`: word `p` at `8 + 2p`, scaled by channel `p` (`Scaled` in `ReadSample`). */
  method ReadAnalogData(scale: (AnalogChannel, int) -> Num, buffer: seq<byte>, channels: seq<AnalogChannel>, analogCount: nat) returns (r: Result<seq<Num>>)
    requires analogCount <= |channels|
    ensures r == AnalogValues(scale, buffer, channels, analogCount)
  {
    var analogData: seq<Num> := [];
    var p := 0;
    var i := 8;
    while i < 8 + 2 * analogCount
      invariant p <= analogCount && i == 8 + 2 * p
      invariant AnalogValues(scale, buffer, channels, p) == Success(analogData)
    {
      AnalogValuesNext(scale, buffer, channels, p, analogData);
      var raw := ReadInt16LE(buffer, i);
      if raw.Failure? {
        AnalogValuesFailure(scale, buffer, channels, p + 1, analogCount);
        return Failure(raw.error);
      }
      analogData := analogData + [scale(channels[p], raw.value)];
      p := p + 1;
      i := i + 2;
    }
    r := Success(analogData);
  }

  /** The status loop of `Sample.Read`: every word from `start` to the end, `S - 16p` bits of word `p`. */
  method ReadStatusData(buffer: seq<byte>, start: int, statusCount: nat) returns (r: Result<seq<nat>>)
    ensures r == StatusWords(buffer, start, statusCount, WordCount(|buffer|, start))
  {
    var statusData: seq<nat> := [];
    var p := 0;
    var i := start;
    while i < |buffer|
      invariant i == start + 2 * p
      invariant p == 0 || start + 2 * (p - 1) < |buffer|
      invariant StatusWords(buffer, start, statusCount, p) == Success(statusData)
      decreases |buffer| - i
    {
      StatusWordsNext(buffer, start, statusCount, p, statusData);
      var word := ReadUInt16LE(buffer, i);
      if word.Failure? {
        StatusWordsFailure(buffer, start, statusCount, p + 1, WordCount(|buffer|, start));
        return Failure(word.error);
      }
      var statusByte := word.value;
      ghost var before := statusData;
      var j := 0;
      while 16 * p + j < statusCount
        invariant j == 0 || 16 * p + j <= statusCount
        invariant statusData == before + WordEntries(statusByte, p, 16 * p + j)
      {
        WordEntriesNext(statusByte, p, j);
        statusData := statusData + [Bit(statusByte, j)];
        j := j + 1;
      }
      WordEntriesDone(statusByte, p, j, statusCount);
      p := p + 1;
      i := i + 2;
    }
    WordCountExit(|buffer|, start, p);
    r := Success(statusData);
  }

  /** `Sample.Read`: the header, then the analog loop, then the status loop (skipped for a NaN analog count). */
  method ReadSample(buffer: seq<byte>, config: Configuration) returns (r: Result<Sample>)
    requires ChannelsCover(config)
    ensures r == DecodeSample(buffer, config)
  {
    var sampleNumber :- ReadUInt32LE(buffer, 0);
    var timestamp :- FromBuffer(Subarray(buffer, 4, 8), config.startTimestamp, config.tsMulFac);
    var analogData :- ReadAnalogData(Scaled, buffer, config.analogChannels, LoopCount(config.analogCount));
    var statusData: seq<nat> := [];
    if config.analogCount.Int? {
      statusData :- ReadStatusData(buffer, 8 + 2 * config.analogCount.i, LoopCount(config.statusCount));
    }
    r := Success(Sample(sampleNumber, timestamp, analogData, statusData));
  }

  /**
   * A decoded record has one value per counted analog channel, value `i` being
   * the signed word at `8 + 2i` scaled by channel `i`'s `a` and `b`.
   */
  lemma SampleAnalogData(buffer: seq<byte>, config: Configuration)
    requires ChannelsCover(config)
    requires DecodeSample(buffer, config).Success?
    ensures |DecodeSample(buffer, config).value.analogData| == LoopCount(config.analogCount)
    ensures forall i :: 0 <= i < LoopCount(config.analogCount) ==>
              DecodeSample(buffer, config).value.analogData[i]
              == Scaled(config.analogChannels[i], ReadInt16LE(buffer, 8 + 2 * i).value)
  {
    AnalogValuesContents(Scaled, buffer, config.analogChannels, LoopCount(config.analogCount));
  }

  /** The status words succeed exactly when each lies wholly in the buffer. */
  lemma {:induction false} StatusWordsSuccess(buffer: seq<byte>, start: int, statusCount: nat, count: nat)
    ensures StatusWords(buffer, start, statusCount, count).Success?
            <==> count == 0 || (0 <= start && start + 2 * count <= |buffer|)
  {
    if count > 0 {
      StatusWordsSuccess(buffer, start, statusCount, count - 1);
    }
  }

  /**
   * With an integer analog count, the status part of a record decodes exactly
   * when it starts at or past the end, or starts inside the buffer and leaves an
   * even number of bytes: an odd trailing byte is a range error.
   */
  lemma StatusDataSuccess(buffer: seq<byte>, config: Configuration)
    requires config.analogCount.Int?
    ensures var start := 8 + 2 * config.analogCount.i;
            StatusData(buffer, config).Success?
            <==> start >= |buffer| || (0 <= start && (|buffer| - start) % 2 == 0)
  {
    var start := 8 + 2 * config.analogCount.i;
    StatusWordsSuccess(buffer, start, LoopCount(config.statusCount), WordCount(|buffer|, start));
  }

  /**
   * A decoded record has `Σ_p max(0, S - 16p)` status entries, one run per word
   * from the status offset to the end, where `S` is the status count.
   */
  lemma SampleStatusLength(buffer: seq<byte>, config: Configuration)
    requires ChannelsCover(config)
    requires DecodeSample(buffer, config).Success?
    ensures var statusData := DecodeSample(buffer, config).value.statusData;
            match StatusOffset(config.analogCount)
            case None => statusData == []
            case Some(start) =>
              |statusData| == EntryCount(LoopCount(config.statusCount), WordCount(|buffer|, start))
  {
    match StatusOffset(config.analogCount)
    case None =>
    case Some(start) =>
      StatusWordsLength(buffer, start, LoopCount(config.statusCount), WordCount(|buffer|, start));
  }

  /**
   * One status word and at most 16 status channels: one entry per channel,
   * channel `k + 1` being bit `k` of the word.
   */
  lemma OneWordStatus(buffer: seq<byte>, start: int, statusCount: nat)
    requires statusCount <= 16
    requires StatusWords(buffer, start, statusCount, 1).Success?
    ensures |StatusWords(buffer, start, statusCount, 1).value| == statusCount
    ensures forall k :: 0 <= k < statusCount ==>
              StatusWords(buffer, start, statusCount, 1).value[k] == Bit(ReadUInt16LE(buffer, start).value, k)
  {
    StatusWordsLength(buffer, start, statusCount, 1);
    forall k | 0 <= k < statusCount
      ensures StatusWords(buffer, start, statusCount, 1).value[k] == Bit(ReadUInt16LE(buffer, start).value, k)
    {
      StatusWordsEntry(buffer, start, statusCount, 1, 0, k);
    }
  }

  /**
   * At most 16 status channels and one status word: the record's status
   * entries are the low `S` bits of that word, channel `k + 1` being bit `k`.
   */
  lemma SampleStatusOneWord(buffer: seq<byte>, config: Configuration, a: nat)
    requires ChannelsCover(config)
    requires config.analogCount == Int(a)
    requires 1 <= LoopCount(config.statusCount) <= 16
    requires |buffer| == 8 + 2 * a + 2
    requires DecodeSample(buffer, config).Success?
    ensures |DecodeSample(buffer, config).value.statusData| == LoopCount(config.statusCount)
    ensures forall k :: 0 <= k < LoopCount(config.statusCount) ==>
              DecodeSample(buffer, config).value.statusData[k] == Bit(ReadUInt16LE(buffer, 8 + 2 * a).value, k)
  {
    SampleParts(buffer, config);
    assert WordCount(|buffer|, 8 + 2 * a) == 1;
    OneWordStatus(buffer, 8 + 2 * a, LoopCount(config.statusCount));
  }

  /**
   * A record decodes exactly when it holds the sample number and the time
   * stamp and its analog and status parts decode, and its values are theirs.
   */
  lemma SampleParts(buffer: seq<byte>, config: Configuration)
    requires ChannelsCover(config)
    ensures DecodeSample(buffer, config).Success?
            <==> 8 <= |buffer|
                 && AnalogValues(Scaled, buffer, config.analogChannels, LoopCount(config.analogCount)).Success?
                 && StatusData(buffer, config).Success?
    ensures DecodeSample(buffer, config).Success? ==>
              DecodeSample(buffer, config).value.analogData
              == AnalogValues(Scaled, buffer, config.analogChannels, LoopCount(config.analogCount)).value
    ensures DecodeSample(buffer, config).Success? ==>
              DecodeSample(buffer, config).value.statusData == StatusData(buffer, config).value
  {
  }

  /**
   * Two status words and between 17 and 32 status channels: the inner loop runs
   * `S` times for word 0 and `S - 16` times for word 1, so there are `2S - 16`
   * entries, entries 16 to `S - 1` are bits 16 and up of word 0, always 0, and
   * word 1's bits come after them.
   */
  lemma {:induction false} TwoWordsOverrun(buffer: seq<byte>, start: int, statusCount: nat)
    requires 16 < statusCount <= 32
    requires StatusWords(buffer, start, statusCount, 2).Success?
    ensures |StatusWords(buffer, start, statusCount, 2).value| == 2 * statusCount - 16
    ensures forall k :: 16 <= k < statusCount ==> StatusWords(buffer, start, statusCount, 2).value[k] == 0
    ensures forall m :: statusCount <= m < 2 * statusCount - 16 ==>
              StatusWords(buffer, start, statusCount, 2).value[m]
              == Bit(ReadUInt16LE(buffer, start + 2).value, m - statusCount)
  {
    StatusWordsLength(buffer, start, statusCount, 2);
    assert EntryCount(statusCount, 1) == statusCount;
    forall k | 16 <= k < statusCount
      ensures StatusWords(buffer, start, statusCount, 2).value[k] == 0
    {
      StatusWordsEntry(buffer, start, statusCount, 2, 0, k);
      HighBitsZero(WordAt(buffer, start, 0), k);
    }
    forall m | statusCount <= m < 2 * statusCount - 16
      ensures StatusWords(buffer, start, statusCount, 2).value[m]
              == Bit(ReadUInt16LE(buffer, start + 2).value, m - statusCount)
    {
      StatusWordsEntry(buffer, start, statusCount, 2, 1, m - statusCount);
    }
  }

  /**
   * Between 17 and 32 status channels in a record of two status words (the
   * size `Data` gives it): there are `2S - 16` entries, more than `S`; the
   * entries of channels 17 to `S` are always 0, and word 1's bits only appear
   * past the last channel.
   */
  lemma SampleStatusOverrun(buffer: seq<byte>, config: Configuration, a: nat)
    requires ChannelsCover(config)
    requires config.analogCount == Int(a)
    requires 16 < LoopCount(config.statusCount) <= 32
    requires |buffer| == 8 + 2 * a + 4
    requires DecodeSample(buffer, config).Success?
    ensures |DecodeSample(buffer, config).value.statusData| == 2 * LoopCount(config.statusCount) - 16
    ensures forall k :: 16 <= k < LoopCount(config.statusCount) ==> DecodeSample(buffer, config).value.statusData[k] == 0
    ensures forall m :: LoopCount(config.statusCount) <= m < 2 * LoopCount(config.statusCount) - 16 ==>
              DecodeSample(buffer, config).value.statusData[m]
              == Bit(ReadUInt16LE(buffer, 8 + 2 * a + 2).value, m - LoopCount(config.statusCount))
  {
    SampleParts(buffer, config);
    assert WordCount(|buffer|, 8 + 2 * a) == 2;
    TwoWordsOverrun(buffer, 8 + 2 * a, LoopCount(config.statusCount));
  }

  /** The sample number and time stamp of a record whose header was encoded from `number` and `raw`. */
  lemma SampleHeaderRoundTrip(number: nat, raw: nat, rest: seq<byte>, config: Configuration)
    requires ChannelsCover(config)
    requires number <= Sentinel32 && raw <= Sentinel32
    requires DecodeSample(EncodeUInt32LE(number) + EncodeUInt32LE(raw) + rest, config).Success?
    ensures var s := DecodeSample(EncodeUInt32LE(number) + EncodeUInt32LE(raw) + rest, config).value;
            s.sampleNumber == number &&
            s.timestamp == TimeStamp(config.startTimestamp,
                                     if raw == Sentinel32 then None
                                     else Some(Mul(Val(raw as real), config.tsMulFac)))
  {
    var buffer := EncodeUInt32LE(number) + EncodeUInt32LE(raw) + rest;
    ReadEncodedUInt32([], number, EncodeUInt32LE(raw) + rest);
    assert [] + EncodeUInt32LE(number) + (EncodeUInt32LE(raw) + rest) == buffer;
    assert buffer[4..8] == EncodeUInt32LE(raw);
    FromBufferRoundTrip(raw, config.startTimestamp, config.tsMulFac);
  }

  /** What `getAnalogValue` and `getStatusValue` return: the record's time and the value, or undefined. */
  datatype ChannelValue<T> = ChannelValue(seconds: DateParts, microseconds: Option<Num>, value: Option<T>)

  /** The array index a number denotes: a non-negative integer; any other number reads `undefined`. */
  function ArrayIndex(x: Num): (k: Option<nat>)
    ensures k.Some? <==> x.Val? && x.r >= 0.0 && x.r.Floor as real == x.r
    ensures k.Some? ==> k.value as real == x.r
  {
    if x.Val? && x.r >= 0.0 && x.r.Floor as real == x.r then Some(x.r.Floor) else None
  }

  /** `array[k]`: the element, or `undefined` past the end or for a non-index. */
  function Element<T>(s: seq<T>, k: Option<nat>): (e: Option<T>)
    ensures e.Some? <==> k.Some? && k.value < |s|
    ensures e.Some? ==> e.value == s[k.value]
  {
    if k.Some? && k.value < |s| then Some(s[k.value]) else None
  }

  /** `n - 1` for a channel number `n` held as text. */
  function Predecessor(n: string): Num
  {
    Add(ToNumber(n), Val(-1.0))
  }

  /** Channel number `k`, written in decimal, indexes entry `k - 1`; channel number 0 indexes nothing. */
  lemma IndexOfNumber(k: nat)
    ensures ArrayIndex(Predecessor(NatToDecimal(k))) == if k >= 1 then Some(k - 1) else None
  {
    ToNumberOfDecimal(k);
    var x := (k - 1) as real;
    assert Predecessor(NatToDecimal(k)) == Val(x);
    assert x.Floor == k - 1;
  }

  /** `Sample.getAnalogValue(n)`: channel numbers start from 1. */
  function GetAnalogValue(sample: Sample, n: string): (v: ChannelValue<Num>)
    ensures v.seconds == sample.timestamp.time && v.microseconds == sample.timestamp.timeMicroseconds
    ensures v.value.Some? ==> v.value.value in sample.analogData
  {
    ChannelValue(sample.timestamp.time, sample.timestamp.timeMicroseconds,
                 Element(sample.analogData, ArrayIndex(Predecessor(n))))
  }

  /** `Sample.getStatusValue(n)`: channel numbers start from 1. */
  function GetStatusValue(sample: Sample, n: string): (v: ChannelValue<nat>)
    ensures v.seconds == sample.timestamp.time && v.microseconds == sample.timestamp.timeMicroseconds
    ensures v.value.Some? ==> v.value.value in sample.statusData
  {
    ChannelValue(sample.timestamp.time, sample.timestamp.timeMicroseconds,
                 Element(sample.statusData, ArrayIndex(Predecessor(n))))
  }

  /** Channel number `k`, written in decimal, names the `k`-th value; 0 and numbers past the end read undefined. */
  lemma GetAnalogValueOfNumber(sample: Sample, k: nat)
    ensures GetAnalogValue(sample, NatToDecimal(k)).seconds == sample.timestamp.time
    ensures GetAnalogValue(sample, NatToDecimal(k)).microseconds == sample.timestamp.timeMicroseconds
    ensures GetAnalogValue(sample, NatToDecimal(k)).value.Some? <==> 1 <= k <= |sample.analogData|
    ensures 1 <= k <= |sample.analogData| ==>
              GetAnalogValue(sample, NatToDecimal(k)).value == Some(sample.analogData[k - 1])
  {
    IndexOfNumber(k);
  }

  /** Channel number `k`, written in decimal, names the `k`-th status entry; 0 and numbers past the end read undefined. */
  lemma GetStatusValueOfNumber(sample: Sample, k: nat)
    ensures GetStatusValue(sample, NatToDecimal(k)).value.Some? <==> 1 <= k <= |sample.statusData|
    ensures 1 <= k <= |sample.statusData| ==>
              GetStatusValue(sample, NatToDecimal(k)).value == Some(sample.statusData[k - 1])
  {
    IndexOfNumber(k);
  }

  /** A channel number that is not a number reads undefined. */
  lemma GetValueOfNaN(sample: Sample, n: string)
    requires ToNumber(n) == NaN
    ensures GetAnalogValue(sample, n).value == None
    ensures GetStatusValue(sample, n).value == None
  {
  }
}
