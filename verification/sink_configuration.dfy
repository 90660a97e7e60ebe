/**
 * The `MementoGroup` configuration extension: argument checks in a fixed
 * order, advisory self-log warnings about threshold ordering, and the
 * parameters the sink and its downstream logger are built with.
 */
module SinkConfiguration {
  import opened Wrappers
  import opened Events
  import MementoGroupSink

  newtype Int64 = n: int | -0x8000_0000_0000_0000 <= n < 0x8000_0000_0000_0000

  const DefaultBufferExpiryInMs: Int64 := 30000
  /** TimeSpan ticks (100 ns) per millisecond. */
  const TicksPerMillisecond: int := 10000

  /**
   * The effect of the caller's target-configuration action that matters
   * here: the minimum level, if any, it sets on the target configuration, and
   * whether building the target logger throws (the action itself, or
   * CreateLogger on the configuration it leaves behind).
   */
  datatype TargetSetup = TargetSetup(requestedMinimum: Option<Level>, throws: bool)

  /** The extension method's arguments; `None` stands for a null reference. */
  datatype Arguments = Arguments(
    configureTargetLogger: Option<TargetSetup>,
    correlationProperty: Option<string>,
    bufferExpiryInMs: Int64,
    passthroughLevel: Level,
    triggerLevel: Level,
    minimumLevel: Level)

  /**
   * ArgumentNullException and ArgumentOutOfRangeException, with the offending
   * parameter's name, or whatever the target logger's construction threw.
   */
  datatype ConfigError =
    | ArgumentNull(paramName: string)
    | ArgumentOutOfRange(paramName: string)
    | TargetLoggerFailed

  /** The two advisory self-log lines, by the threshold ordering each reports. */
  datatype Advisory = PassthroughNotAboveMinimum | TriggerNotAbovePassthrough

  /** What a successful call builds: the sink, and the minimum level of its downstream logger. */
  datatype Configured = Configured(sink: MementoGroupSink.Sink, targetMinimumLevel: Level)

  /** The call's result (the built sink or the exception) and the self-log lines written before it. */
  datatype Outcome = Outcome(result: Result<Configured, ConfigError>, selfLog: seq<Advisory>)

  /** .NET's char.IsWhiteSpace: the Unicode space, line and paragraph separators, U+0009..U+000D and U+0085. */
  predicate IsWhiteSpace(c: char)
  {
    var n := c as int;
    || 0x09 <= n <= 0x0D || n == 0x20 || n == 0x85 || n == 0xA0
    || n == 0x1680 || 0x2000 <= n <= 0x200A || n == 0x2028 || n == 0x2029
    || n == 0x202F || n == 0x205F || n == 0x3000
  }

  /** .NET's string.IsNullOrWhiteSpace: null, or no character other than white space. */
  function IsNullOrWhiteSpace(value: Option<string>): (b: bool)
    ensures value.None? ==> b
    ensures value == Some("") ==> b
    ensures value.Some? ==> (b <==> forall c :: c in value.value ==> IsWhiteSpace(c))
  {
    value.None? || forall i :: 0 <= i < |value.value| ==> IsWhiteSpace(value.value[i])
  }

  /** The target logger configuration, reduced to its minimum level (None: never set). */
  datatype TargetConfiguration = TargetConfiguration(minimumLevel: Option<Level>)

  /** Run the caller's action on a new target configuration, then force the sink's minimum level on it. */
  function TargetMinimumLevel(setup: TargetSetup, minimumLevel: Level): (l: Level)
    ensures l == minimumLevel
  {
    var initial := TargetConfiguration(None);
    var afterAction :=
      if setup.requestedMinimum.Some? then initial.(minimumLevel := setup.requestedMinimum) else initial;
    var forced := afterAction.(minimumLevel := Some(minimumLevel));
    forced.minimumLevel.value
  }

  /** The lines written to the self-log, in order, for the given thresholds. */
  function Advisories(passthroughLevel: Level, triggerLevel: Level, minimumLevel: Level): seq<Advisory>
  {
    (if passthroughLevel <= minimumLevel then [PassthroughNotAboveMinimum] else [])
    + (if triggerLevel <= passthroughLevel then [TriggerNotAbovePassthrough] else [])
  }

  /** The three argument checks all pass. */
  predicate ArgumentsAccepted(args: Arguments)
  {
    args.configureTargetLogger.Some? && !IsNullOrWhiteSpace(args.correlationProperty)
    && args.bufferExpiryInMs >= 0
  }

  /** LoggerSinkConfigurationExtensions.MementoGroup. */
  function MementoGroup(args: Arguments): (o: Outcome)
    // the three argument errors, each checked only when the ones before it passed
    ensures args.configureTargetLogger.None? ==>
              o.result == Failure(ArgumentNull("configureTargetLogger"))
    ensures args.configureTargetLogger.Some? && IsNullOrWhiteSpace(args.correlationProperty) ==>
              o.result == Failure(ArgumentNull("correlationProperty"))
    ensures args.configureTargetLogger.Some? && !IsNullOrWhiteSpace(args.correlationProperty)
            && args.bufferExpiryInMs < 0 ==>
              o.result == Failure(ArgumentOutOfRange("bufferExpiryInMs"))
    // an argument error is raised before anything is logged
    ensures !ArgumentsAccepted(args) ==> o.selfLog == []
    // the advisories never stop the sink from being built; a failing target logger does
    ensures o.result.Success? <==> ArgumentsAccepted(args) && !args.configureTargetLogger.value.throws
    ensures o.result == Failure(TargetLoggerFailed) <==>
              ArgumentsAccepted(args) && args.configureTargetLogger.value.throws
    // once the arguments are accepted the advisories are logged, whatever happens next
    ensures ArgumentsAccepted(args) ==>
              && (PassthroughNotAboveMinimum in o.selfLog <==> args.passthroughLevel <= args.minimumLevel)
              && (TriggerNotAbovePassthrough in o.selfLog <==> args.triggerLevel <= args.passthroughLevel)
              && |o.selfLog| <= 2
              && (|o.selfLog| == 2 ==>
                    o.selfLog == [PassthroughNotAboveMinimum, TriggerNotAbovePassthrough])
    ensures o.result.Success? ==>
              && o.result.value.sink.correlationProperty == args.correlationProperty.value
              && o.result.value.sink.bufferExpiry == args.bufferExpiryInMs as int * TicksPerMillisecond
              && o.result.value.sink.thresholds
                 == Thresholds(args.passthroughLevel, args.triggerLevel, args.minimumLevel)
              && o.result.value.targetMinimumLevel == args.minimumLevel
  {
    if args.configureTargetLogger.None? then
      Outcome(Failure(ArgumentNull("configureTargetLogger")), [])
    else if IsNullOrWhiteSpace(args.correlationProperty) then
      Outcome(Failure(ArgumentNull("correlationProperty")), [])
    else if args.bufferExpiryInMs < 0 then
      Outcome(Failure(ArgumentOutOfRange("bufferExpiryInMs")), [])
    else
      var selfLog := Advisories(args.passthroughLevel, args.triggerLevel, args.minimumLevel);
      var setup := args.configureTargetLogger.value;
      if setup.throws then
        Outcome(Failure(TargetLoggerFailed), selfLog)
      else
        var target := TargetMinimumLevel(setup, args.minimumLevel);
        var thresholds := Thresholds(args.passthroughLevel, args.triggerLevel, args.minimumLevel);
        var sink := MementoGroupSink.Sink(
          args.correlationProperty.value, args.bufferExpiryInMs as int * TicksPerMillisecond, thresholds);
        Outcome(Success(Configured(sink, target)), selfLog)
  }

  /** The call with every optional argument left at its default. */
  function WithDefaults(configureTargetLogger: Option<TargetSetup>, correlationProperty: Option<string>): Arguments
  {
    Arguments(configureTargetLogger, correlationProperty, DefaultBufferExpiryInMs, Information, Error, Debug)
  }

  /**
   * The defaults log no advisory and, unless the target logger fails, build
   * a sink with a 30-second expiry, passthrough Information, trigger Error
   * and minimum Debug.
   */
  lemma DefaultsBuildQuietly(setup: TargetSetup, correlationProperty: string)
    requires !IsNullOrWhiteSpace(Some(correlationProperty))
    ensures var o := MementoGroup(WithDefaults(Some(setup), Some(correlationProperty)));
            && o.selfLog == []
            && (o.result.Success? <==> !setup.throws)
            && (o.result.Success? ==>
                  && o.result.value.sink.bufferExpiry == 30 * 10_000_000
                  && o.result.value.sink.thresholds == Thresholds(Information, Error, Debug)
                  && o.result.value.targetMinimumLevel == Debug)
  {
  }

  /** The levels decide only the advisories: whether and how the call fails never depends on them. */
  lemma LevelsNeverCauseErrors(args: Arguments, passthrough: Level, trigger: Level, minimum: Level)
    ensures var other := args.(passthroughLevel := passthrough, triggerLevel := trigger, minimumLevel := minimum);
            && MementoGroup(args).result.Success? == MementoGroup(other).result.Success?
            && (MementoGroup(args).result.Failure? ==> MementoGroup(args).result == MementoGroup(other).result)
  {
  }

  /** Strictly ordered thresholds, minimum < passthrough < trigger, log no advisory. */
  lemma OrderedThresholdsAreQuiet(args: Arguments)
    requires args.minimumLevel < args.passthroughLevel < args.triggerLevel
    ensures MementoGroup(args).selfLog == []
  {
  }
}
