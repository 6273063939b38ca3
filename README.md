# Query-plan sanitisation engine, modelled in Dafny

This project models the core of a natural-language query service. The service
asks a language model for two JSON texts: an analysis that names the primary
collection, and a MongoDB aggregation pipeline. It turns them into a pipeline
scoped to the authenticated caller. The model covers `services/queryService.js`:

- `safeJsonParse`: strips the Markdown fences and parses, or yields `null`.
- `parseRelativeDate`: turns "today", "this month" and "last month" into
  half-open `{ $gte, $lt }` ranges of local midnights.
- `processDateFilters`: the recursive, rule-ordered rewrite of `$match` bodies.
  Relative dates become ranges and identifier strings become `ObjectId`s.
- `injectDateLogicIntoPipeline`: the map over stages. It keeps each stage's first
  key, rewrites `$match` bodies and walks nested `$lookup` pipelines.
- The decision logic of `processUserQuery`:
  - validation of the two replies;
  - coercion of the caller's id;
  - tenant scoping for the nine per-user collections;
  - the walk after scoping;
  - skipping execution for an empty pipeline;
  - the result envelope.

JavaScript values are a datatype (`JsValue.Value`). An object is the ordered
list of its own properties, so `for...in`, `Object.keys(...)[0]` and object
spread become list operations (`Assign`, `AssignAll`, `FirstEntry`).

External parts are parameters:
- The clock is a calendar day.
- The MongoDB driver's `ObjectId.isValid` and `new ObjectId` are an
  uninterpreted `ObjectIdDriver`.
- `JSON.parse` is a function that may fail.
- The database is a readiness flag and an `aggregate` function.

Modules, one per component: `Calendar`, `JsString` and `JsValue` (the
JavaScript semantics relied on), `ArtifactParser`, `RelativeDate`,
`TypeNormalizer`, `PlanWalker`, `TenantScope` and `QueryService`.

Four behaviours of the code worth noting:
- The walk runs after scoping (line 210), not before it.
- Normalisation is not idempotent: see `TypeNormalizer.NotIdempotent`.
- The overwrite at lines 196-198 leaves a `userId` that is already an
  `ObjectId` alone, so it is not unconditional.
- The tenant-scoping guarantee fails in the two cases under "## Findings".
  `TenantScope.Scope` is the corrected procedure that the rest of the model uses.
  `TenantScope.ScopeAsWritten` is the code as written.

## Model

| member | source | states |
|---|---|---|
| `Calendar.MonthStart` | services/queryService.js:25-27 | `new Date(y, m, 1)` is a valid first of a month; month -1 is December of the year before and month 12 is January of the year after |
| `Calendar.NextDay` | services/queryService.js:23-24 | `setDate(getDate() + 1)` gives a valid day strictly after the given one |
| `Calendar.NextDayIsSuccessor` | services/queryService.js:22-24 | no valid day lies strictly between a day and its successor |
| `Calendar.MonthStartsAdvance` | services/queryService.js:25-27 | the first of a month is before the first of the next month |
| `Calendar.DayWithinItsMonth` | services/queryService.js:26-27 | a day lies in the span from its month's first to the next month's first |
| `JsString.ContainsIffOccurs` | services/queryService.js:69 | `includes` holds exactly when the pattern occurs at some position |
| `JsString.TrimStartSkipsSpace` | services/queryService.js:11 | a greedy `\s*` drops exactly the leading white space |
| `JsString.LowerEqualsIffCaseVariant` | services/queryService.js:32-36 | lower-casing equals a lower-case phrase exactly when the string spells it in any letter case |
| `JsString.DecimalRoundTrip` | services/queryService.js:254 | reading the rendered count back gives the count |
| `JsValue.AssignReads` | services/queryService.js:62 | after a property write the key reads the new value and every other key reads as before |
| `JsValue.AssignAllAppends` | services/queryService.js:121-124 | spreading an object with distinct keys onto one with none of them appends its fields in order |
| `ArtifactParser.StripFences` | services/queryService.js:11 | removing the fences never lengthens the text, and without an opening "```json" only a tail is removed |
| `ArtifactParser.Clean` | services/queryService.js:11 | the text handed to `JSON.parse` is no longer than the answer and neither starts nor ends with white space |
| `ArtifactParser.SafeJsonParse` | services/queryService.js:9-16 | the result is `null` or the parser's answer for the cleaned text, and `null` for an empty answer; nothing is thrown |
| `ArtifactParser.SafeJsonParseOutcomes` | services/queryService.js:8-17 | empty text and rejected text give `null`; otherwise the result is the parse of the cleaned text; no failure escapes |
| `ArtifactParser.FencedBlockIsUnwrapped` | services/queryService.js:11 | a "```json" block with any white space after the opening reaches the parser as its trimmed body |
| `ArtifactParser.UnfencedTextIsTrimmed` | services/queryService.js:11 | text without fences is only trimmed |
| `ArtifactParser.BareOpeningFenceIsKept` | services/queryService.js:11 | a bare "```" opening is not removed by the pattern |
| `RelativeDate.ParseRelativeDate` | services/queryService.js:20-39 | the argument comes back unchanged, or a string has become a `{ $gte, $lt }` object that passes the date-condition test |
| `RelativeDate.NonStringUnchanged` | services/queryService.js:29-31 | a non-string argument comes back unchanged |
| `RelativeDate.RecognisedIffPhrase` | services/queryService.js:32-38 | a string is turned into a range exactly when it is one of the three phrases in any letter case, and that range passes the date-condition test; any other string comes back unchanged |
| `RelativeDate.RangesAreHalfOpen` | services/queryService.js:21-36 | every range is two valid midnights with `$gte` strictly before `$lt`; "today" and "this month" contain now |
| `RelativeDate.LastMonthMeetsThisMonth` | services/queryService.js:25-35 | the upper bound of "last month" is the lower bound of "this month" |
| `RelativeDate.JanuaryLastMonthIsPreviousDecember` | services/queryService.js:25-34 | in January "last month" runs from the first of December of the previous year to the first of January |
| `RelativeDate.DecemberThisMonthEndsInNextYear` | services/queryService.js:26-35 | in December "this month" ends on the first of January of the next year |
| `RelativeDate.TodayIsOneDay` | services/queryService.js:22-36 | the only valid day inside the "today" range is today |
| `TypeNormalizer.Normalize` | services/queryService.js:42-102 | an array stays an array of the same length, an object or a `Date` becomes an object, anything else comes back unchanged |
| `TypeNormalizer.NormalizeEntry` | services/queryService.js:59-99 | a `$text` operand is kept; a string is kept, becomes an `ObjectId`, or, under a date-like key only, becomes a date condition; other scalars are kept |
| `TypeNormalizer.ProcessEntry` | services/queryService.js:59-99 | one pass of the loop body, with its `continue`s and the `catch`, stores the value `NormalizeEntry` gives |
| `TypeNormalizer.ProcessDateFilters` | services/queryService.js:42-102 | the early return, the element-wise map and the key-by-key `for...in` loop compute the rule-ordered rewrite `Normalize` |
| `TypeNormalizer.ScalarsUnchanged` | services/queryService.js:44-54 | primitives, `null` and `ObjectId`s come back unchanged |
| `TypeNormalizer.ArraysMapped` | services/queryService.js:47-49 | arrays keep their length and order and each element is rewritten |
| `TypeNormalizer.DateBecomesEmptyObject` | services/queryService.js:57-59 | a `Date` has no enumerable key, so it is rebuilt as `{}` |
| `TypeNormalizer.ObjectsKeepKeys` | services/queryService.js:57-101 | an object keeps exactly its key set; with distinct keys, the same keys in order with each value rewritten |
| `TypeNormalizer.FieldRewritten` | services/queryService.js:59-99 | each key of the output reads the rule-ordered rewrite of its input value |
| `TypeNormalizer.TextCopiedVerbatim` | services/queryService.js:61-64 | the `$text` operand is copied unchanged |
| `TypeNormalizer.DatePhraseWinsOverObjectId` | services/queryService.js:69-79 | under a key that is both date-like and id-like, a relative-date phrase becomes a range whatever the driver says |
| `TypeNormalizer.UnrecognisedDateFallsThrough` | services/queryService.js:75-99 | any other string becomes an `ObjectId` when the key is id-like and the driver accepts and builds one; otherwise it is copied |
| `TypeNormalizer.ObjectIdsSurvive` | services/queryService.js:51-54 | an `ObjectId` survives, at the top level and under any key |
| `TypeNormalizer.NotIdempotent` | services/queryService.js:89-90 | rewriting twice differs from rewriting once: the `Date`s in a produced range become `{}` |
| `PlanWalker.InjectDateLogic` | services/queryService.js:106-135 | anything but an array is returned as it is; an array that is walked without error keeps its length; the only error is a TypeError |
| `PlanWalker.InjectStage` | services/queryService.js:110-135 | a nullish stage throws, the only error is a TypeError, and a stage that is walked without error becomes a one-key object under its first key |
| `PlanWalker.NonArrayUnchanged` | services/queryService.js:107 | anything but an array is returned as it is |
| `PlanWalker.ThrowsIffNullStage` | services/queryService.js:110-112 | the walk throws exactly when it meets a `null` or `undefined` stage, at the top level or in a walked `$lookup` pipeline |
| `PlanWalker.StageThrowsIffNull` | services/queryService.js:110-125 | one stage throws exactly when it is nullish or is a `$lookup` whose walked pipeline throws |
| `PlanWalker.StagesKeepShape` | services/queryService.js:110-135 | the output has the input's length; stage i is a one-key object keyed by stage i's first key |
| `PlanWalker.StageShape` | services/queryService.js:111-134 | each stage that does not throw becomes an object with the single key of its first key |
| `PlanWalker.MatchBodyNormalized` | services/queryService.js:117-118 | a `$match` stage keeps only its body, rewritten by `processDateFilters` |
| `PlanWalker.LookupPipelineWalked` | services/queryService.js:119-125 | a `$lookup` with a truthy `pipeline` keeps its other fields and key order and holds the walked nested pipeline |
| `PlanWalker.OtherStagesCopied` | services/queryService.js:130-133 | any other stage is copied under its first key with its value untouched |
| `PlanWalker.CallerIdSurvives` | services/queryService.js:117-118 | an `ObjectId` under `userId` in a `$match` body is still there after the walk |
| `TenantScope.ScopeAsWritten` | services/queryService.js:176-206 | as written: an unscoped collection is left alone, at most one stage is added, and the only error is a TypeError on a nullish stage |
| `TenantScope.Scope` | services/queryService.js:176-206 | corrected (both findings): an unscoped collection is left alone, at most one stage is added, and the only error is a TypeError on a nullish stage |
| `TenantScope.TextMerge` | services/queryService.js:182-185 | corrected (first finding): the merged `$text` match body has distinct keys and reads the caller's id under `userId` |
| `TenantScope.FindUserIdMatch` | services/queryService.js:189 | corrected (second finding), reading only a leading `$match`: like `some`, true exactly when a binding stage comes before any nullish one, a TypeError exactly when a nullish stage comes before any binding one, false exactly when there is neither |
| `TenantScope.RebindStages` | services/queryService.js:195-201 | corrected (second finding), reading only a leading `$match`: the overwriting `map` yields the rebound stages, or throws a TypeError on a nullish stage |
| `TenantScope.InjectUserScope` | services/queryService.js:176-206 | corrected (both findings): the scoping steps, in the source's order, compute `Scope` |
| `TenantScope.UnscopedUnchanged` | services/queryService.js:176-206 | outside the nine collections the pipeline is unchanged |
| `TenantScope.TextStageMerged` | services/queryService.js:179-185 | a leading `$text` match gets the caller's id in the same stage; the count, the later stages and the other match fields are unchanged |
| `TenantScope.TextMergeReads` | services/queryService.js:182-185 | the merge keeps every other field of the match body |
| `TenantScope.PrependsOneStage` | services/queryService.js:189-191 | with no stage binding `userId`, exactly `{ $match: { userId } }` is prepended |
| `TenantScope.OverwriteRebindsEveryMatch` | services/queryService.js:192-202 | otherwise every stage whose match binds `userId` binds the caller, keeping its other fields; other stages are unchanged; the count is unchanged |
| `TenantScope.RebindsParsedMatch` | services/queryService.js:196-199 | overwriting one parsed stage makes its match bind the caller and keeps its other fields |
| `TenantScope.ScopeThrowsOnlyOnNullStage` | services/queryService.js:179-196 | scoping throws exactly on a nullish first stage, or on any nullish stage when there is no leading `$text` match |
| `TenantScope.OtherStagesNotScanned` | services/queryService.js:189-196 | a stage that does not lead with `$match`, a `$lookup` among them, is neither scanned nor rewritten |
| `TenantScope.TextMergeIsStable` | services/queryService.js:182-185 | merging the caller's id twice is merging it once |
| `TenantScope.ScopeIdempotent` | services/queryService.js:176-206 | scoping its own output adds no stage and rewrites nothing |
| `TenantScope.ScopeLeavesCallerStage` | services/queryService.js:176-203 | after scoping, some stage's leading match binds the caller |
| `TenantScope.CallerStageSurvivesWalk` | services/queryService.js:117-118 | such a stage still binds the caller after the walk |
| `TenantScope.ScopeBindsCaller` | services/queryService.js:176-210 | for a per-user collection, after scoping and the walk some top-level `$match` binds the caller's `ObjectId` |
| `TenantScope.AsWrittenTextMergeKeepsModelUserId` | services/queryService.js:182-185 | as written, the language model's `userId` in a `$text` match replaces the caller's, where the corrected merge binds the caller |
| `TenantScope.AsWrittenTrailingMatchIsDropped` | services/queryService.js:189-201 | as written, a `$match` that is not a stage's first key suppresses the prepend and is then dropped by the walk, so no stage binds the caller |
| `TenantScope.ScopeAgreesWithAsWritten` | services/queryService.js:176-206 | when every `$match` leads its stage and a leading `$text` match names no `userId` (matches naming a `userId` without `$text` included), the corrected and as-written procedures agree |
| `QueryService.CallerId` | services/queryService.js:168-174 | a string id is accepted exactly when the driver validates and builds it, and an `ObjectId` is taken as is; the errors are the format error and the invalid-id error |
| `QueryService.FoundMessage` | services/queryService.js:254 | the message is "Found " and " results." around a run of digits whose decimal value is the count |
| `QueryService.Prepared` | services/queryService.js:176-210 | the pipeline handed to the database (scoped, corrected, then walked) has at most one stage more than the parsed one, and the only error is a TypeError |
| `QueryService.PreparedBindsCaller` | services/queryService.js:176-210 | for a per-user collection and JSON-shaped parsed stages, the prepared pipeline has a top-level stage binding the caller |
| `QueryService.ExecutePlan` | services/queryService.js:176-258 | from scoping on: a TypeError, the missing database, an unusable collection name, a failed aggregation, or the envelope, in that order; only a non-empty pipeline runs; a success binds the caller on a per-user collection, for JSON-shaped parsed stages |
| `QueryService.ZeroResultsMessage` | services/queryService.js:254 | the message for no results is "Found 0 results." |
| `QueryService.ProcessUserQuery` | services/queryService.js:139-258 | every outcome is fixed, in source order: the analysis error, the generation error, the caller-id errors, a TypeError from scoping or the walk, the missing database, an unusable collection name, a failed aggregation; otherwise the request succeeds with the parsed analysis, the prepared pipeline (scoped with the corrections) and its results, and an empty pipeline is not run and yields `[]` and "Found 0 results."; for a per-user collection and JSON-shaped parsed stages the executed pipeline binds the caller |

## Findings

| source | as written | input that shows it | evidently intended | confidence | as-written member | corrected member |
|---|---|---|---|---|---|---|
| services/queryService.js:182-185 | the caller's id is written before the language model's match body is spread over it, so a `userId` already in that body wins | a pipeline for a per-user collection whose first stage matches on `$text` and `userId: {"$exists": true}` | the caller's id is the value of `userId` in that stage | high; not executed | `TenantScope.AsWrittenTextMergeKeepsModelUserId` | `TenantScope.TextStageMerged` |
| services/queryService.js:189-201 | the scan reads `$match` anywhere in a stage, but the walk keeps only each stage's first key | `[{"$sort": {"createdAt": -1}, "$match": {"userId": "u"}}]` for a per-user collection: nothing is prepended, and the walk drops the `$match` | a stage scopes the pipeline only when the walk keeps its `$match` | high; not executed | `TenantScope.AsWrittenTrailingMatchIsDropped` | `TenantScope.ScopeBindsCaller` |

## Left out

- The model call, the prompts of `services/promptEngineer.js`, the database connection of `config/db.js`, and the routes and server: the replies are input strings, and the database is a readiness flag plus an `aggregate` function. An error thrown by the model call itself is not modelled.
- `async`/`await`: the steps are one sequential method.
- All `console` logging: the line-162 branch only logs, and so does the debug block at lines 229-240.
- The `Array.isArray` check at lines 221-223: the walk of an array always returns an array (`PlanWalker.StagesKeepShape`), so that error cannot occur and is not modelled.
- `JSON.parse`, `ObjectId.isValid` and `new ObjectId` are uninterpreted parameters. Their real behaviour depends on the runtime and on the driver version.
- The order of integer-like keys: JavaScript objects enumerate them first, in ascending order. The model keeps every key in insertion order.
- `Object.keys` on an `ObjectId` or a `Date` stage is taken to find no enumerable own key.
- Time of day, the local time zone and daylight-saving shifts: a midnight is a calendar day.
- One clock reading per request: `parseRelativeDate` reads `new Date()` on every call (line 21), so a request that runs across midnight, or across the turn of a month, can mix the ranges of two days. The model evaluates every call on the same day `now`.
- JsValue.Assign: models `o[k] = v` (lines 62-98, 118 and 132) as an own-property write for every key. For the key `"__proto__"`, which `JSON.parse` output can carry as an own key, JavaScript instead calls the prototype setter. So `{"__proto__": {"a": 1}}` comes back from `processDateFilters` with no own key, while `TypeNormalizer.ObjectsKeepKeys` states that the key set is kept.
- Calendar.MonthStart: does not model `new Date` mapping the years 0-99 to 1900-1999. That only matters for a clock set to those years.
- `toLowerCase` beyond ASCII: this is exact for comparing with the three phrases, because no other code point lowers to their letters as a single character.
- Exception texts: e.g. TypeError messages and the rendering of `userId` inside "Invalid user ID provided: …". The errors are constructors; `InvalidUserId` carries the offending value.
- In-place mutation of the parsed pipeline at lines 182, 191 and 198: the model works on values. The model does not capture two stages sharing one object, which `JSON.parse` output never does. The input to `processDateFilters` is never modified, because values are immutable.
