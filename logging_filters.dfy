/**
 * The logging filters: the base context filter that lets every record
 * through, the noise-reduction filter that drops records by level, logger
 * name and message substrings, and the request-id filter that gives every
 * record the request id of its context, making one when there is none.
 * The request id a fresh `uuid4` would give is an input.
 */
module LoggingFilters {
  import opened Wrappers
  import opened Text

  /** The `log_context` context variable: key/value pairs added to records. */
  class LogContext {
    var values: map<string, string>

    constructor()
      ensures values == map[]
    {
      values := map[];
    }
  }

  /** A `LogRecord`: level number, logger name, formatted message, and the attributes filters set on it. */
  class LogRecord {
    const levelno: int
    const name: string
    const message: string
    var attrs: map<string, string>

    constructor(levelno: int, name: string, message: string)
      ensures this.levelno == levelno && this.name == name && this.message == message && attrs == map[]
    {
      this.levelno := levelno;
      this.name := name;
      this.message := message;
      attrs := map[];
    }
  }

  /** `BaseContextFilter.filter`: the base `add_context` does nothing, and every record passes. */
  method BaseContextFilter(record: LogRecord) returns (r: bool)
    ensures r
  {
    r := true;
  }

  /** The patterns a noise filter built without any uses. */
  const DefaultSuppressPatterns: seq<string> := ["/health", "/metrics", "/ping", "heartbeat"]

  /** A configured `NoiseReductionFilter`. */
  datatype NoiseReduction = NoiseReduction(suppressPatterns: seq<string>, suppressLoggers: seq<string>, minLevel: Option<int>)

  /**
   * `NoiseReductionFilter.__init__`: `or` replaces a missing or EMPTY pattern
   * list by the defaults, and a missing or empty logger list by none.
   */
  function NewNoiseReduction(patterns: Option<seq<string>>, loggers: Option<seq<string>>, minLevel: Option<int>): (f: NoiseReduction)
    ensures patterns.None? || patterns.value == [] ==> f.suppressPatterns == DefaultSuppressPatterns
    ensures patterns.Some? && patterns.value != [] ==> f.suppressPatterns == patterns.value
    ensures loggers.Some? ==> f.suppressLoggers == loggers.value
    ensures loggers.None? ==> f.suppressLoggers == []
    ensures f.minLevel == minLevel
  {
    NoiseReduction(
      if patterns.None? || patterns.value == [] then DefaultSuppressPatterns else patterns.value,
      if loggers.None? then [] else loggers.value,
      minLevel)
  }

  /** Index of the first pattern the message contains, or the length when it contains none. */
  function FirstMatch(patterns: seq<string>, message: string): (k: nat)
    ensures k <= |patterns|
    ensures k < |patterns| ==> Contains(message, patterns[k])
    ensures forall j :: 0 <= j < k ==> !Contains(message, patterns[j])
  {
    if patterns == [] then 0
    else if Contains(message, patterns[0]) then 0
    else 1 + FirstMatch(patterns[1..], message)
  }

  /**
   * `NoiseReductionFilter.filter`: a record passes unless a truthy minimum
   * level exceeds its level, its logger is suppressed, or its message
   * contains a suppressed pattern. A minimum level of 0 checks nothing.
   */
  function NoiseFilter(f: NoiseReduction, levelno: int, name: string, message: string): (r: bool)
    ensures f.minLevel.Some? && f.minLevel.value != 0 && levelno < f.minLevel.value ==> !r
    ensures name in f.suppressLoggers ==> !r
    ensures (exists j :: 0 <= j < |f.suppressPatterns| && Contains(message, f.suppressPatterns[j])) ==> !r
    ensures !r ==> ((f.minLevel.Some? && f.minLevel.value != 0 && levelno < f.minLevel.value)
      || name in f.suppressLoggers
      || (exists j :: 0 <= j < |f.suppressPatterns| && Contains(message, f.suppressPatterns[j])))
  {
    if f.minLevel.Some? && f.minLevel.value != 0 && levelno < f.minLevel.value then false
    else if name in f.suppressLoggers then false
    else FirstMatch(f.suppressPatterns, message) == |f.suppressPatterns|
  }

  /** A filter built with no patterns drops every health-check message, whatever its level and logger. */
  lemma DefaultDropsHealthChecks(loggers: Option<seq<string>>, minLevel: Option<int>, levelno: int, name: string, message: string)
    requires StartsWith(message, "/health")
    ensures !NoiseFilter(NewNoiseReduction(None, loggers, minLevel), levelno, name, message)
  {
    assert Contains(message, DefaultSuppressPatterns[0]);
  }

  /** An explicitly empty pattern list is not "no patterns": it still brings in the defaults. */
  lemma EmptyPatternsMeanDefaults(levelno: int, name: string)
    ensures !NoiseFilter(NewNoiseReduction(Some([]), None, None), levelno, name, "heartbeat")
  {
    assert Contains("heartbeat", DefaultSuppressPatterns[3]);
  }

  /**
   * `RequestIdFilter.add_context`: an existing request id in the context
   * is copied onto the record; otherwise `newId` becomes the context's
   * request id and the record's.
   */
  method RequestIdAddContext(ctx: LogContext, record: LogRecord, newId: string)
    modifies ctx, record
    ensures "request_id" in ctx.values && record.attrs == old(record.attrs)["request_id" := ctx.values["request_id"]]
    ensures "request_id" in old(ctx.values) ==> ctx.values == old(ctx.values)
    ensures "request_id" !in old(ctx.values) ==> ctx.values == old(ctx.values)["request_id" := newId]
  {
    if "request_id" !in ctx.values {
      ctx.values := ctx.values["request_id" := newId];
      record.attrs := record.attrs["request_id" := newId];
    } else {
      record.attrs := record.attrs["request_id" := ctx.values["request_id"]];
    }
  }

  /** `RequestIdFilter.filter`: the base filter around the request-id `add_context`; every record passes. */
  method RequestIdFilter(ctx: LogContext, record: LogRecord, newId: string) returns (r: bool)
    modifies ctx, record
    ensures r
    ensures "request_id" in ctx.values && record.attrs == old(record.attrs)["request_id" := ctx.values["request_id"]]
    ensures "request_id" in old(ctx.values) ==> ctx.values == old(ctx.values)
    ensures "request_id" !in old(ctx.values) ==> ctx.values == old(ctx.values)["request_id" := newId]
  {
    RequestIdAddContext(ctx, record, newId);
    r := true;
  }
}
