/**
 * `ComtradeParser`: a configuration file read first, then the data file read
 * with that configuration; `getPrettyData` delegates to the data.
 */

module ComtradeParsers {
  import opened Failures
  import opened JsNumbers
  import opened Bytes
  import opened Configurations
  import opened Samples
  import opened Datasets

  /** A parsed COMTRADE recording: its configuration and the samples of its data file. */
  datatype ComtradeParser = ComtradeParser(config: Configuration, samples: seq<Sample>)

  /** `new ComtradeParser(configFile, dataFile)`; the first exception thrown becomes the failure. */
  function ParseComtrade(configText: string, dataFile: seq<byte>): (r: Result<ComtradeParser>)
    ensures ParseConfiguration(configText).Failure? ==> r == Failure(ParseConfiguration(configText).error)
    ensures r.Success? ==> ParseConfiguration(configText) == Success(r.value.config)
    ensures r.Success? ==> ChannelsCover(r.value.config) && DataRead(dataFile, r.value.config) == Success(r.value.samples)
  {
    var config :- ParseConfiguration(configText);
    ParsedConfigurationCovers(configText, config);
    var samples :- DataRead(dataFile, config);
    Success(ComtradeParser(config, samples))
  }

  /** The constructor as the source runs it: the two constructors in turn. */
  method NewComtradeParser(configText: string, dataFile: seq<byte>) returns (r: Result<ComtradeParser>)
    ensures r == ParseComtrade(configText, dataFile)
  {
    var config :- ReadConfiguration(configText);
    ParsedConfigurationCovers(configText, config);
    var samples :- ReadData(dataFile, config);
    r := Success(ComtradeParser(config, samples));
  }

  /** `ComtradeParser.getPrettyData`: the data's pretty form. */
  method GetParserPrettyData(parser: ComtradeParser) returns (r: PrettyData)
    ensures r == Pretty(parser.config, parser.samples)
  {
    r := GetPrettyData(parser.config, parser.samples);
  }

  /**
   * Once the configuration reads, the parser holds it and fails exactly when
   * the data file fails to read with it, with the data's error.
   */
  lemma DataFailure(configText: string, dataFile: seq<byte>, config: Configuration)
    requires ParseConfiguration(configText) == Success(config)
    ensures ChannelsCover(config)
    ensures DataRead(dataFile, config).Failure? ==>
              ParseComtrade(configText, dataFile) == Failure(DataRead(dataFile, config).error)
    ensures DataRead(dataFile, config).Success? ==>
              ParseComtrade(configText, dataFile) == Success(ComtradeParser(config, DataRead(dataFile, config).value))
  {
    ParsedConfigurationCovers(configText, config);
  }

  /** An empty data file reads no sample. */
  lemma EmptyDataFile(configText: string)
    requires ParseConfiguration(configText).Success?
    ensures ParseComtrade(configText, []) == Success(ComtradeParser(ParseConfiguration(configText).value, []))
  {
    var config := ParseConfiguration(configText).value;
    ParsedConfigurationCovers(configText, config);
    assert WindowCount(0, 0) == 0;
  }

  /**
   * A parsed recording has one sample per `sample_size` stride of the data
   * file, each with one analog value per counted analog channel; its pretty
   * data has one series per counted channel, each with one entry per sample.
   */
  lemma ParsedShape(configText: string, dataFile: seq<byte>)
    requires ParseComtrade(configText, dataFile).Success?
    ensures var p := ParseComtrade(configText, dataFile).value;
            var pretty := Pretty(p.config, p.samples);
            |pretty.analogChannels| == LoopCount(p.config.analogCount) &&
            |pretty.statusChannels| == LoopCount(p.config.statusCount) &&
            (forall i :: 0 <= i < |pretty.analogChannels| ==> |pretty.analogChannels[i].data| == |p.samples|) &&
            (forall i :: 0 <= i < |pretty.statusChannels| ==> |pretty.statusChannels[i].data| == |p.samples|) &&
            (forall k :: 0 <= k < |p.samples| ==> |p.samples[k].analogData| == LoopCount(p.config.analogCount))
    ensures var p := ParseComtrade(configText, dataFile).value;
            |dataFile| > 0 ==>
              RecordSize(p.config).Some? && RecordSize(p.config).value > 0 &&
              |p.samples| == WindowCount(|dataFile|, RecordSize(p.config).value)
  {
    var config := ParseConfiguration(configText).value;
    ParsedConfigurationCovers(configText, config);
    ConfigurationChannels(Text.SplitLines(configText), config);
    var samples := DataRead(dataFile, config).value;
    if |dataFile| == 0 {
      EmptyDataFile(configText);
    } else {
      if RecordSize(config).None? || RecordSize(config).value <= 0 {
        DataReadWithoutStride(dataFile, config);
        assert false;
      }
      var size := RecordSize(config).value;
      DataReadCount(dataFile, config, size);
      forall k | 0 <= k < |samples|
        ensures |samples[k].analogData| == LoopCount(config.analogCount)
      {
        DataReadSample(dataFile, config, size, k);
        SampleAnalogData(Window(dataFile, size, k), config);
      }
    }
  }
}
