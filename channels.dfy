/**
 * Channel definition lines of the configuration file. `new AnalogChannel(line)`
 * and `new StatusChannel(line)` split the line on commas, assign the fields by
 * position (a missing position is undefined) and then run `SanityCheck`, which
 * throws when one of the checked fields is undefined.
 */
module Channels {
  import opened Failures
  import opened Text

  /** An analog channel line: every field is kept as the text found in the line. */
  datatype AnalogChannel = AnalogChannel(
    n: string, chId: string, ph: string, ccbm: string, uu: string, a: string, b: string,
    skew: string, min: string, max: string, primary: string, secondary: string, ps: string)

  /** A status channel line: every field is kept as the text found in the line. */
  datatype StatusChannel = StatusChannel(n: string, chId: string, ph: string, ccbm: string, y: string)

  /** An analog channel object after `Read` and before `SanityCheck`: fields may be undefined. */
  datatype AnalogFields = AnalogFields(
    n: Option<string>, chId: Option<string>, ph: Option<string>, ccbm: Option<string>,
    uu: Option<string>, a: Option<string>, b: Option<string>, skew: Option<string>,
    min: Option<string>, max: Option<string>, primary: Option<string>,
    secondary: Option<string>, ps: Option<string>)

  /** A status channel object after `Read` and before `SanityCheck`. */
  datatype StatusFields = StatusFields(
    n: Option<string>, chId: Option<string>, ph: Option<string>, ccbm: Option<string>,
    y: Option<string>)

  /** `AnalogChannel.Read`: field k of the line goes to the k-th property. */
  function AnalogRead(line: string): AnalogFields
  {
    var parts := Split(line, Separator);
    AnalogFields(At(parts, 0), At(parts, 1), At(parts, 2), At(parts, 3), At(parts, 4),
                 At(parts, 5), At(parts, 6), At(parts, 7), At(parts, 8), At(parts, 9),
                 At(parts, 10), At(parts, 11), At(parts, 12))
  }

  /** `AnalogChannel.SanityCheck`: `n`, `uu`, `a`, `b`, `min`, `max`, `primary`, `secondary` and `ps` must be defined. */
  function AnalogSanityCheck(f: AnalogFields): Result<AnalogChannel>
    // `Read` fills the fields from the front, so a defined `ps` leaves none undefined
    requires f.ps.Some? ==> f.chId.Some? && f.ph.Some? && f.ccbm.Some? && f.skew.Some?
  {
    if f.n.None? || f.uu.None? || f.a.None? || f.b.None? || f.min.None? || f.max.None?
       || f.primary.None? || f.secondary.None? || f.ps.None?
    then Failure(AnalogChannelSanity)
    else
      Success(AnalogChannel(f.n.value, f.chId.value, f.ph.value, f.ccbm.value, f.uu.value,
                            f.a.value, f.b.value, f.skew.value, f.min.value, f.max.value,
                            f.primary.value, f.secondary.value, f.ps.value))
  }

  /** The fields of an analog channel in line order. */
  function AnalogFieldList(c: AnalogChannel): (fs: seq<string>)
    ensures |fs| == 13
  {
    [c.n, c.chId, c.ph, c.ccbm, c.uu, c.a, c.b, c.skew, c.min, c.max, c.primary, c.secondary, c.ps]
  }

  /**
   * `new AnalogChannel(line)`. It fails exactly when the line has fewer than 13
   * comma-separated fields (then `ps = parts[12]` is undefined); otherwise the
   * first 13 fields are taken verbatim, empty ones included.
   */
  function NewAnalogChannel(line: string): (r: Result<AnalogChannel>)
    ensures r.Success? <==> |Split(line, Separator)| >= 13
    ensures r.Failure? ==> r.error == AnalogChannelSanity
    ensures r.Success? ==> AnalogFieldList(r.value) == Split(line, Separator)[..13]
  {
    var f := AnalogRead(line);
    assert f.ps.Some? ==> f.chId.Some? && f.ph.Some? && f.ccbm.Some? && f.skew.Some?;
    AnalogSanityCheck(f)
  }

  /** `StatusChannel.Read`: field k of the line goes to the k-th property. */
  function StatusRead(line: string): StatusFields
  {
    var parts := Split(line, Separator);
    StatusFields(At(parts, 0), At(parts, 1), At(parts, 2), At(parts, 3), At(parts, 4))
  }

  /** `StatusChannel.SanityCheck`: `n` and `y` must be defined. */
  function StatusSanityCheck(f: StatusFields): Result<StatusChannel>
    // `Read` fills the fields from the front, so a defined `y` leaves none undefined
    requires f.y.Some? ==> f.chId.Some? && f.ph.Some? && f.ccbm.Some?
  {
    if f.n.None? || f.y.None? then Failure(StatusChannelSanity)
    else Success(StatusChannel(f.n.value, f.chId.value, f.ph.value, f.ccbm.value, f.y.value))
  }

  /** The fields of a status channel in line order. */
  function StatusFieldList(c: StatusChannel): (fs: seq<string>)
    ensures |fs| == 5
  {
    [c.n, c.chId, c.ph, c.ccbm, c.y]
  }

  /**
   * `new StatusChannel(line)`. It fails exactly when the line has fewer than 5
   * comma-separated fields; otherwise the first 5 fields are taken verbatim.
   */
  function NewStatusChannel(line: string): (r: Result<StatusChannel>)
    ensures r.Success? <==> |Split(line, Separator)| >= 5
    ensures r.Failure? ==> r.error == StatusChannelSanity
    ensures r.Success? ==> StatusFieldList(r.value) == Split(line, Separator)[..5]
  {
    var f := StatusRead(line);
    assert f.y.Some? ==> f.chId.Some? && f.ph.Some? && f.ccbm.Some?;
    StatusSanityCheck(f)
  }

  /** An analog line written from a channel's fields (plus any further fields) reads back as that channel. */
  lemma AnalogLineRoundTrip(c: AnalogChannel, extra: seq<string>)
    requires forall k :: 0 <= k < 13 ==> Separator !in AnalogFieldList(c)[k]
    requires forall k :: 0 <= k < |extra| ==> Separator !in extra[k]
    ensures NewAnalogChannel(Join(AnalogFieldList(c) + extra, Separator)) == Success(c)
  {
    SplitJoinHead(AnalogFieldList(c), extra, Separator);
  }

  /** A status line written from a channel's fields (plus any further fields) reads back as that channel. */
  lemma StatusLineRoundTrip(c: StatusChannel, extra: seq<string>)
    requires forall k :: 0 <= k < 5 ==> Separator !in StatusFieldList(c)[k]
    requires forall k :: 0 <= k < |extra| ==> Separator !in extra[k]
    ensures NewStatusChannel(Join(StatusFieldList(c) + extra, Separator)) == Success(c)
  {
    SplitJoinHead(StatusFieldList(c), extra, Separator);
  }
}
