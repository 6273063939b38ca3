/**
 * `processUserQuery` without its I/O: the two model replies arrive as text,
 * the caller's id as a value, and the database as a readiness flag and an
 * `aggregate` function from a collection name and a pipeline to the documents
 * it returns (`None` when the aggregation fails).
 */
module QueryService {
  import opened Calendar
  import opened JsValue
  import opened JsString
  import opened ArtifactParser
  import opened PlanWalker
  import opened TenantScope

  /** The object the service resolves with. */
  datatype Envelope = Envelope(message: string, queryAnalysis: Value, executedPipeline: seq<Value>, results: seq<Value>)

  /** `analysis && analysis.primaryCollection`: the first reply is usable. */
  predicate ValidAnalysis(analysis: Value) {
    Truthy(analysis) && Truthy(Prop(analysis, "primaryCollection"))
  }

  /** `pipeline && Array.isArray(pipeline)`: the second reply is usable. */
  predicate ValidPipeline(pipeline: Value) {
    Truthy(pipeline) && pipeline.Arr?
  }

  /** `analysis.primaryCollection && typeof analysis.primaryCollection === 'string'`: a usable collection name. */
  predicate CollectionName(primary: Value) {
    Truthy(primary) && primary.Str?
  }

  /** `Found ${n} results.`: the count, readable back from between the two fixed parts. */
  function FoundMessage(n: nat): (r: string)
    ensures |r| > 15 && r[..6] == "Found " && r[|r| - 9..] == " results."
    ensures (forall i :: 6 <= i < |r| - 9 ==> '0' <= r[i] <= '9') && DecimalValue(r[6..|r| - 9]) == n
  {
    var digits := NatToDecimal(n);
    DecimalRoundTrip(n);
    var r := "Found " + digits + " results.";
    assert r[6..|r| - 9] == digits;
    r
  }

  /**
   * The caller's `ObjectId` (as its hex text): built from a string the driver
   * accepts, or taken as it is when it already is one.
   */
  function CallerId(userId: Value, drv: ObjectIdDriver): (r: Outcome<string>)
    ensures r.Ok? <==> (userId.Str? && drv.isValid(userId.s) && drv.construct(userId.s).Some?) || userId.OId?
    ensures r.Ok? && userId.Str? ==> drv.construct(userId.s) == Some(r.value)
    ensures r.Ok? && userId.OId? ==> r.value == userId.hex
    ensures r == Throw(InvalidUserIdFormat) <==> userId.Str? && drv.isValid(userId.s) && drv.construct(userId.s).None?
    ensures r.Throw? && r != Throw(InvalidUserIdFormat) ==> r == Throw(InvalidUserId(userId))
  {
    if userId.Str? && drv.isValid(userId.s) then
      match drv.construct(userId.s)
      case Some(h) => Ok(h)
      case None => Throw(InvalidUserIdFormat)
    else if userId.OId? then Ok(userId.hex)
    else Throw(InvalidUserId(userId))
  }

  lemma ZeroResultsMessage()
    ensures FoundMessage(0) == "Found 0 results."
  {
  }

  /**
   * The pipeline handed to the database: the parsed stages scoped for the
   * caller `oid` when `primary` is a per-user collection, then walked.
   */
  function Prepared(stages: seq<Value>, oid: string, primary: Value, now: Day, drv: ObjectIdDriver): (r: Outcome<seq<Value>>)
    requires ValidDay(now)
    ensures r.Throw? ==> r.error == TypeError
    ensures r.Ok? ==> |stages| <= |r.value| <= |stages| + 1
  {
    match Scope(stages, oid, IsUserScoped(primary))
    case Throw(e) => Throw(e)
    case Ok(q) =>
      match InjectDateLogic(Arr(q), now, drv)
      case Throw(e) => Throw(e)
      case Ok(w) => Ok(w.elems)
  }

  /**
   * Every parsed pipeline for a per-user collection that is prepared without
   * error binds the caller in one of its top-level stages.
   */
  lemma PreparedBindsCaller(stages: seq<Value>, oid: string, primary: Value, now: Day, drv: ObjectIdDriver)
    requires ValidDay(now) && IsUserScoped(primary) && forall i :: 0 <= i < |stages| ==> IsJson(stages[i])
    requires Prepared(stages, oid, primary, now, drv).Ok?
    ensures exists i :: 0 <= i < |Prepared(stages, oid, primary, now, drv).value| &&
              BindsCaller(Prepared(stages, oid, primary, now, drv).value[i], oid)
  {
    ScopeBindsCaller(stages, oid, now, drv);
  }

  /**
   * What lines 176-258 end in once the replies and the caller's id are accepted:
   * the TypeError of scoping or the walk, the missing database, the unusable
   * collection name, the failed aggregation, or the envelope, in that order;
   * only a non-empty pipeline is handed to the database.
   */
  predicate PlanOutcome(
    r: Outcome<Envelope>, executed: Option<(string, seq<Value>)>,
    analysis: Value, stages: seq<Value>, oid: string, now: Day, drv: ObjectIdDriver,
    dbReady: bool, aggregate: (string, seq<Value>) -> Option<seq<Value>>)
    requires ValidDay(now)
  {
    var primary := Prop(analysis, "primaryCollection");
    var prepared := Prepared(stages, oid, primary, now, drv);
    && (prepared.Throw? ==> r == Throw(TypeError) && executed.None?)
    && (prepared.Ok? && !dbReady ==> r == Throw(DatabaseNotInitialized) && executed.None?)
    && (prepared.Ok? && dbReady && !CollectionName(primary) ==> r == Throw(InvalidPrimaryCollection) && executed.None?)
    && (prepared.Ok? && dbReady && CollectionName(primary) && prepared.value == [] ==>
          r == Ok(Envelope("Found 0 results.", analysis, [], [])) && executed.None?)
    && (prepared.Ok? && dbReady && CollectionName(primary) && prepared.value != [] ==>
          && executed == Some((primary.s, prepared.value))
          && (aggregate(primary.s, prepared.value).None? ==> r == Throw(ExecutionFailed))
          && (aggregate(primary.s, prepared.value).Some? ==>
                var found := aggregate(primary.s, prepared.value).value;
                r == Ok(Envelope(FoundMessage(|found|), analysis, prepared.value, found))))
  }

  /**
   * Lines 176-258 once the replies and the caller's id are accepted: scope, walk,
   * check the database and the collection name, run a non-empty pipeline, and
   * answer with the envelope.
   */
  method ExecutePlan(
    analysis: Value, stages: seq<Value>, oid: string, now: Day, drv: ObjectIdDriver,
    dbReady: bool, aggregate: (string, seq<Value>) -> Option<seq<Value>>)
    returns (r: Outcome<Envelope>, executed: Option<(string, seq<Value>)>)
    requires ValidDay(now)
    ensures PlanOutcome(r, executed, analysis, stages, oid, now, drv, dbReady, aggregate)
    ensures !dbReady ==> r.Throw? && executed.None?
    ensures executed.Some? ==> dbReady && executed.value.1 != [] && (r.Ok? || r == Throw(ExecutionFailed))
    ensures r.Ok? ==> r.value.message == FoundMessage(|r.value.results|) && r.value.queryAnalysis == analysis
    ensures r.Ok? && r.value.executedPipeline == [] ==> r.value.results == [] && r.value.message == "Found 0 results."
    ensures (r.Ok? && IsUserScoped(Prop(analysis, "primaryCollection")) && forall i :: 0 <= i < |stages| ==> IsJson(stages[i])) ==>
              exists i :: 0 <= i < |r.value.executedPipeline| && BindsCaller(r.value.executedPipeline[i], oid)
  {
    executed := None;
    var primary := Prop(analysis, "primaryCollection");
    ghost var prepared := Prepared(stages, oid, primary, now, drv);
    var scoped := InjectUserScope(stages, oid, IsUserScoped(primary));
    if scoped.Throw? {
      return Throw(scoped.error), None;
    }
    var walked := InjectDateLogic(Arr(scoped.value), now, drv);
    if walked.Throw? {
      return Throw(walked.error), None;
    }
    assert prepared == Ok(walked.value.elems);
    if !dbReady {
      return Throw(DatabaseNotInitialized), None;
    }
    if !CollectionName(primary) {
      return Throw(InvalidPrimaryCollection), None;
    }
    var pipeline := walked.value.elems;
    var results: seq<Value> := [];
    if |pipeline| > 0 {
      executed := Some((primary.s, pipeline));
      var answer := aggregate(primary.s, pipeline);
      if answer.None? {
        return Throw(ExecutionFailed), executed;
      }
      results := answer.value;
    }
    ZeroResultsMessage();
    r := Ok(Envelope(FoundMessage(|results|), analysis, pipeline, results));
    if IsUserScoped(primary) && forall i :: 0 <= i < |stages| ==> IsJson(stages[i]) {
      PreparedBindsCaller(stages, oid, primary, now, drv);
    }
  }

  /**
   * One request, step by step. `executed` is the aggregation handed to the
   * database, if one was.
   */
  method ProcessUserQuery(
    analysisText: string, pipelineText: string, userId: Value,
    now: Day, drv: ObjectIdDriver, parse: string -> Option<Value>,
    dbReady: bool, aggregate: (string, seq<Value>) -> Option<seq<Value>>)
    returns (r: Outcome<Envelope>, executed: Option<(string, seq<Value>)>)
    requires ValidDay(now)
    // the replies are rejected first, then the caller's id, all before the database is touched
    ensures !ValidAnalysis(SafeJsonParse(analysisText, parse)) ==> r == Throw(AnalysisFailed) && executed.None?
    ensures ValidAnalysis(SafeJsonParse(analysisText, parse)) && !ValidPipeline(SafeJsonParse(pipelineText, parse)) ==>
              r == Throw(GenerationFailed) && executed.None?
    ensures (ValidAnalysis(SafeJsonParse(analysisText, parse)) && ValidPipeline(SafeJsonParse(pipelineText, parse)) &&
             CallerId(userId, drv).Throw?) ==> r == Throw(CallerId(userId, drv).error) && executed.None?
    // then a TypeError from scoping or the walk, the database, the collection name and the aggregation
    ensures (ValidAnalysis(SafeJsonParse(analysisText, parse)) && ValidPipeline(SafeJsonParse(pipelineText, parse)) &&
             CallerId(userId, drv).Ok?) ==>
              PlanOutcome(r, executed, SafeJsonParse(analysisText, parse), SafeJsonParse(pipelineText, parse).elems,
                          CallerId(userId, drv).value, now, drv, dbReady, aggregate)
    ensures !dbReady ==> r.Throw? && executed.None?
    ensures executed.Some? ==> dbReady && executed.value.1 != [] && (r.Ok? || r == Throw(ExecutionFailed))
    ensures r.Ok? ==> ValidAnalysis(SafeJsonParse(analysisText, parse)) && ValidPipeline(SafeJsonParse(pipelineText, parse)) &&
                      CallerId(userId, drv).Ok?
    ensures r.Ok? ==> r.value.message == FoundMessage(|r.value.results|) && r.value.queryAnalysis == SafeJsonParse(analysisText, parse)
    ensures r.Ok? && r.value.executedPipeline == [] ==> r.value.results == [] && r.value.message == "Found 0 results."
    // for a per-user collection, what runs is bound to the caller
    ensures (r.Ok? && IsUserScoped(Prop(SafeJsonParse(analysisText, parse), "primaryCollection")) &&
             forall i :: 0 <= i < |SafeJsonParse(pipelineText, parse).elems| ==> IsJson(SafeJsonParse(pipelineText, parse).elems[i])) ==>
              exists i :: 0 <= i < |r.value.executedPipeline| && BindsCaller(r.value.executedPipeline[i], CallerId(userId, drv).value)
  {
    var analysis := SafeJsonParse(analysisText, parse);
    if !Truthy(analysis) || !Truthy(Prop(analysis, "primaryCollection")) {
      return Throw(AnalysisFailed), None;
    }
    var parsed := SafeJsonParse(pipelineText, parse);
    if !Truthy(parsed) || !parsed.Arr? {
      return Throw(GenerationFailed), None;
    }
    var caller := CallerId(userId, drv);
    if caller.Throw? {
      return Throw(caller.error), None;
    }
    r, executed := ExecutePlan(analysis, parsed.elems, caller.value, now, drv, dbReady, aggregate);
  }
}
