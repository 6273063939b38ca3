/**
 * Tenant scoping in `processUserQuery`: before the pipeline runs against one
 * of the nine per-user collections, the caller's `ObjectId` is merged into a
 * leading `$text` match, or prepended as a `{ $match: { userId } }` stage, or
 * written over every `userId` the language model supplied that is not already an `ObjectId`.
 *
 * `Scope` is the procedure with two defects corrected (see `ScopeAsWritten`):
 * the caller's id is written last in the `$text` merge, and a stage counts as a
 * `$match` stage only when `$match` is its first key, the only key the later
 * walk keeps.
 */
module TenantScope {
  import opened Calendar
  import opened JsValue
  import opened PlanWalker

  /** The collections whose documents carry a `userId`. */
  const UserScopedCollections: seq<string> :=
    ["contacts", "labels", "tags", "activities", "interactions", "reminders", "notes", "contactcards", "userSettings"]

  /** `[...].includes(primaryCollection)`, which only a string can satisfy. */
  predicate IsUserScoped(primaryCollection: Value) {
    primaryCollection.Str? && primaryCollection.s in UserScopedCollections
  }

  /** The stage `{ $match: { userId: callerId } }`. */
  function UserMatch(oid: string): Value {
    Obj([("$match", Obj([("userId", OId(oid))]))])
  }

  /** The `$match` body that the walk keeps: the value of a leading `$match` key. */
  function LeadingMatch(stage: Value): Value {
    if StageKey(stage) == "$match" then FirstEntry(stage).value.1 else Undefined
  }

  /** `m && m.userId`: the condition of `some` and of the overwrite at line 196. */
  predicate BindsUserId(m: Value) {
    Truthy(m) && Truthy(Prop(m, "userId"))
  }

  /** `stage.$match = body` on a stage that is an object. */
  function SetMatch(stage: Value, body: Value): (r: Value)
    requires stage.Obj?
    ensures r.Obj? && Lookup(r.fields, "$match") == Some(body)
  {
    AssignReads(stage.fields, "$match", body);
    Obj(Assign(stage.fields, "$match", body))
  }

  /** The overwrite callback: a `userId` in the match body `m` that is not an `ObjectId` becomes the caller's. */
  function Rebind(stage: Value, m: Value, oid: string): Value
    requires BindsUserId(m) ==> stage.Obj?
  {
    if BindsUserId(m) && !Prop(m, "userId").OId? then SetMatch(stage, Obj(Assign(m.fields, "userId", OId(oid))))
    else stage
  }

  /** `pipeline.length > 0 && m && m.$text`, where `m` is the first stage's match body. */
  predicate TextFirst(p: seq<Value>, m: Value) {
    |p| > 0 && Truthy(m) && Truthy(Prop(m, "$text"))
  }

  /** No stage is `null` or `undefined`, so every property read on a stage succeeds. */
  predicate NoNullStage(p: seq<Value>) {
    forall i :: 0 <= i < |p| ==> !Nullish(p[i])
  }

  /**
   * Lines 176-206 as written: `$match` is read as a property anywhere in a
   * stage, and the merge `{ userId: callerId, ...match }` lets a `userId` of the
   * language model's win.
   */
  function ScopeAsWritten(p: seq<Value>, oid: string, scoped: bool): (r: Outcome<seq<Value>>)
    ensures !scoped ==> r == Ok(p)
    ensures r.Ok? ==> |p| <= |r.value| <= |p| + 1
    ensures r.Throw? ==> r.error == TypeError && !NoNullStage(p)
  {
    if !scoped then Ok(p)
    else if |p| > 0 && Nullish(p[0]) then Throw(TypeError)
    else if TextFirst(p, if |p| > 0 then Prop(p[0], "$match") else Undefined) then
      var m := Prop(p[0], "$match");
      Ok(p[0 := SetMatch(p[0], Obj(AssignAll([("userId", OId(oid))], m.fields)))])
    else if !NoNullStage(p) then Throw(TypeError)
    else if !exists i :: 0 <= i < |p| && BindsUserId(Prop(p[i], "$match")) then Ok([UserMatch(oid)] + p)
    else Ok(seq(|p|, i requires 0 <= i < |p| => Rebind(p[i], Prop(p[i], "$match"), oid)))
  }

  /** Corrected: the merge of the `$text` branch at lines 182-185 with the caller's id written last (the first finding). */
  function TextMerge(m: seq<(string, Value)>, oid: string): (r: seq<(string, Value)>)
    ensures Lookup(r, "userId") == Some(OId(oid)) && DistinctKeys(r)
  {
    AssignAllKeys([("userId", OId(oid))], m);
    var merged := AssignAll([("userId", OId(oid))], m);
    AssignReads(merged, "userId", OId(oid));
    AssignKeys(merged, "userId", OId(oid));
    Assign(merged, "userId", OId(oid))
  }

  /** Some stage's leading `$match` has a truthy `userId`. */
  predicate SomeStageBinds(p: seq<Value>) {
    exists i :: 0 <= i < |p| && BindsUserId(LeadingMatch(p[i]))
  }

  /** The overwrite `map` over all stages. */
  function RebindAll(p: seq<Value>, oid: string): (r: seq<Value>)
    requires NoNullStage(p)
    ensures |r| == |p|
  {
    seq(|p|, i requires 0 <= i < |p| => Rebind(p[i], LeadingMatch(p[i]), oid))
  }

  /** The scoping procedure, corrected: the result of scoping pipeline `p` for the caller `oid`. */
  function Scope(p: seq<Value>, oid: string, scoped: bool): (r: Outcome<seq<Value>>)
    ensures !scoped ==> r == Ok(p)
    ensures r.Ok? ==> |p| <= |r.value| <= |p| + 1
    ensures r.Throw? ==> r.error == TypeError && !NoNullStage(p)
  {
    if !scoped then Ok(p)
    else if |p| > 0 && Nullish(p[0]) then Throw(TypeError)
    else if TextFirst(p, if |p| > 0 then LeadingMatch(p[0]) else Undefined) then
      Ok(p[0 := SetMatch(p[0], Obj(TextMerge(LeadingMatch(p[0]).fields, oid)))])
    else if !NoNullStage(p) then Throw(TypeError)
    else if !SomeStageBinds(p) then Ok([UserMatch(oid)] + p)
    else Ok(RebindAll(p, oid))
  }

  /**
   * Corrected: the `some` scan of line 189, reading a stage's `$match` only when
   * it is the stage's first key (the second finding; the source reads
   * `stage.$match` wherever it sits, as `ScopeAsWritten` does). Like `some`, it
   * stops at the first stage that binds a `userId`, and throws on a `null` or
   * `undefined` stage met before that one.
   */
  method FindUserIdMatch(p: seq<Value>) returns (r: Outcome<bool>)
    ensures r == Ok(true) <==> exists i :: 0 <= i < |p| && BindsUserId(LeadingMatch(p[i])) && NoNullStage(p[..i])
    ensures r == Ok(false) <==> NoNullStage(p) && !SomeStageBinds(p)
    ensures r == Throw(TypeError) <==> exists i :: 0 <= i < |p| && Nullish(p[i]) && !SomeStageBinds(p[..i])
    ensures r.Ok? || r == Throw(TypeError)
  {
    var i := 0;
    while i < |p|
      invariant 0 <= i <= |p|
      invariant forall j :: 0 <= j < i ==> !Nullish(p[j]) && !BindsUserId(LeadingMatch(p[j]))
    {
      if Nullish(p[i]) {
        NullBeforeAnyBinding(p, i);
        return Throw(TypeError);
      }
      if BindsUserId(LeadingMatch(p[i])) {
        BindingBeforeAnyNull(p, i);
        return Ok(true);
      }
      i := i + 1;
    }
    forall j | 0 <= j < |p| ensures !Nullish(p[j]) && !SomeStageBinds(p[..j]) {
      assert forall k :: 0 <= k < j ==> p[..j][k] == p[k];
    }
    return Ok(false);
  }

  /** `some` meeting a binding stage `i` before any nullish one: no nullish stage comes before a binding one. */
  lemma BindingBeforeAnyNull(p: seq<Value>, i: nat)
    requires i < |p| && BindsUserId(LeadingMatch(p[i]))
    requires forall j :: 0 <= j < i ==> !Nullish(p[j]) && !BindsUserId(LeadingMatch(p[j]))
    ensures NoNullStage(p[..i])
    ensures !exists j :: 0 <= j < |p| && Nullish(p[j]) && !SomeStageBinds(p[..j])
  {
    assert forall k :: 0 <= k < i ==> p[..i][k] == p[k];
    forall j | 0 <= j < |p| && Nullish(p[j]) ensures SomeStageBinds(p[..j]) {
      assert j > i;
      assert p[..j][i] == p[i];
    }
  }

  /** `some` meeting a nullish stage `i` first: no binding stage comes before a nullish one. */
  lemma NullBeforeAnyBinding(p: seq<Value>, i: nat)
    requires i < |p| && Nullish(p[i])
    requires forall j :: 0 <= j < i ==> !Nullish(p[j]) && !BindsUserId(LeadingMatch(p[j]))
    ensures !SomeStageBinds(p[..i])
    ensures !exists j :: 0 <= j < |p| && BindsUserId(LeadingMatch(p[j])) && NoNullStage(p[..j])
  {
    assert forall k :: 0 <= k < i ==> p[..i][k] == p[k];
    forall j | 0 <= j < |p| && BindsUserId(LeadingMatch(p[j])) ensures !NoNullStage(p[..j]) {
      assert j > i;
      assert p[..j][i] == p[i];
    }
  }

  /**
   * Corrected: the overwriting `map` of lines 195-201, reading only a leading
   * `$match` (the second finding). Like the source's, it throws on a `null` or
   * `undefined` stage.
   */
  method RebindStages(p: seq<Value>, oid: string) returns (r: Outcome<seq<Value>>)
    ensures NoNullStage(p) ==> r == Ok(RebindAll(p, oid))
    ensures !NoNullStage(p) ==> r == Throw(TypeError)
  {
    var out: seq<Value> := [];
    for j := 0 to |p|
      invariant forall k :: 0 <= k < j ==> !Nullish(p[k])
      invariant out == seq(j, k requires 0 <= k < j => Rebind(p[k], LeadingMatch(p[k]), oid))
    {
      var stage := p[j];
      if Nullish(stage) {
        return Throw(TypeError);
      }
      out := out + [Rebind(stage, LeadingMatch(stage), oid)];
    }
    return Ok(out);
  }

  /**
   * Corrected: the scoping steps of lines 176-206 in the source's order (the
   * `$text` test on the first stage, the `some` scan, then `unshift` or the
   * overwriting `map`), with the caller's id written last in the `$text` merge
   * and only a leading `$match` read (both findings).
   */
  method InjectUserScope(p: seq<Value>, oid: string, scoped: bool) returns (r: Outcome<seq<Value>>)
    ensures r == Scope(p, oid, scoped)
  {
    var pipeline := p;
    if !scoped {
      return Ok(pipeline);
    }
    if |pipeline| > 0 {
      if Nullish(pipeline[0]) {
        return Throw(TypeError);
      }
      var first := LeadingMatch(pipeline[0]);
      if Truthy(first) && Truthy(Prop(first, "$text")) {
        pipeline := pipeline[0 := SetMatch(pipeline[0], Obj(TextMerge(first.fields, oid)))];
        return Ok(pipeline);
      }
    }
    var found := FindUserIdMatch(pipeline);
    if found.Throw? {
      return Throw(found.error);
    }
    if !found.value {
      pipeline := [UserMatch(oid)] + pipeline;
      return Ok(pipeline);
    }
    r := RebindStages(pipeline, oid);
  }

  /** A stage whose leading `$match` binds `userId` to the caller's `ObjectId`. */
  predicate BindsCaller(stage: Value, oid: string) {
    && StageKey(stage) == "$match"
    && LeadingMatch(stage).Obj?
    && Lookup(LeadingMatch(stage).fields, "userId") == Some(OId(oid))
  }

  /** Setting the body of a leading `$match` keeps it leading and changes no other field. */
  lemma SetMatchKeepsLead(stage: Value, body: Value)
    requires StageKey(stage) == "$match"
    ensures stage.Obj? && SetMatch(stage, body).fields == stage.fields[0 := ("$match", body)]
    ensures StageKey(SetMatch(stage, body)) == "$match" && LeadingMatch(SetMatch(stage, body)) == body
  {
    assert IndexOf(stage.fields, "$match") == 0;
  }

  /** Outside the nine collections the pipeline is left alone. */
  lemma UnscopedUnchanged(p: seq<Value>, oid: string)
    ensures Scope(p, oid, false) == Ok(p)
    ensures ScopeAsWritten(p, oid, false) == Ok(p)
  {
  }

  /**
   * A leading `$text` match gets the caller's id in the same stage: the stage
   * count does not change, later stages are untouched, and every other field of
   * the match body keeps its value.
   */
  lemma TextStageMerged(p: seq<Value>, oid: string)
    requires |p| > 0 && IsJson(p[0]) && TextFirst(p, LeadingMatch(p[0]))
    ensures Scope(p, oid, true).Ok?
    ensures var q := Scope(p, oid, true).value;
            && |q| == |p| && q[1..] == p[1..]
            && BindsCaller(q[0], oid)
            && (forall k :: k != "userId" ==> Lookup(LeadingMatch(q[0]).fields, k) == Lookup(LeadingMatch(p[0]).fields, k))
  {
    var m := LeadingMatch(p[0]);
    assert m == p[0].fields[0].1;
    var tm := TextMerge(m.fields, oid);
    SetMatchKeepsLead(p[0], Obj(tm));
    forall k | k != "userId" ensures Lookup(tm, k) == Lookup(m.fields, k) {
      TextMergeReads(m.fields, oid, k);
    }
  }

  /** The `$text` merge keeps every other field of a parsed match body. */
  lemma TextMergeReads(m: seq<(string, Value)>, oid: string, k: string)
    requires DistinctKeys(m) && k != "userId"
    ensures Lookup(TextMerge(m, oid), k) == Lookup(m, k)
  {
    var merged := AssignAll([("userId", OId(oid))], m);
    AssignReads(merged, "userId", OId(oid));
    if k in Keys(m) {
      AssignAllReads([("userId", OId(oid))], m, k);
    } else {
      AssignAllKeepsAbsent([("userId", OId(oid))], m, k);
    }
  }

  /**
   * Without a leading `$text` match, a pipeline none of whose stages binds
   * `userId` gets exactly one stage in front: `{ $match: { userId: callerId } }`.
   */
  lemma PrependsOneStage(p: seq<Value>, oid: string)
    requires !TextFirst(p, if |p| > 0 then LeadingMatch(p[0]) else Undefined)
    requires NoNullStage(p) && !SomeStageBinds(p)
    ensures Scope(p, oid, true) == Ok([UserMatch(oid)] + p)
  {
  }

  /**
   * Otherwise every stage whose leading `$match` binds `userId` to a parsed value
   * binds it to the caller afterwards, keeping its other fields, and every other
   * stage is untouched; the stage count does not change.
   */
  lemma OverwriteRebindsEveryMatch(p: seq<Value>, oid: string)
    requires forall i :: 0 <= i < |p| ==> IsJson(p[i])
    requires !TextFirst(p, if |p| > 0 then LeadingMatch(p[0]) else Undefined)
    requires NoNullStage(p) && SomeStageBinds(p)
    ensures Scope(p, oid, true).Ok? && |Scope(p, oid, true).value| == |p|
    ensures forall i :: 0 <= i < |p| && BindsUserId(LeadingMatch(p[i])) ==>
              && BindsCaller(Scope(p, oid, true).value[i], oid)
              && (forall k :: k != "userId" ==>
                    Lookup(LeadingMatch(Scope(p, oid, true).value[i]).fields, k) == Lookup(LeadingMatch(p[i]).fields, k))
    ensures forall i :: 0 <= i < |p| && !BindsUserId(LeadingMatch(p[i])) ==> Scope(p, oid, true).value[i] == p[i]
  {
    var q := Scope(p, oid, true).value;
    forall i | 0 <= i < |p| && BindsUserId(LeadingMatch(p[i]))
      ensures BindsCaller(q[i], oid)
      ensures forall k :: k != "userId" ==> Lookup(LeadingMatch(q[i]).fields, k) == Lookup(LeadingMatch(p[i]).fields, k)
    {
      RebindsParsedMatch(p[i], oid);
    }
  }

  /** One stage of the overwrite, on a parsed stage whose leading `$match` binds `userId`. */
  lemma RebindsParsedMatch(stage: Value, oid: string)
    requires IsJson(stage) && BindsUserId(LeadingMatch(stage))
    ensures var r := Rebind(stage, LeadingMatch(stage), oid);
            && BindsCaller(r, oid)
            && DistinctKeys(LeadingMatch(r).fields)
            && forall k :: k != "userId" ==> Lookup(LeadingMatch(r).fields, k) == Lookup(LeadingMatch(stage).fields, k)
  {
    var m := LeadingMatch(stage);
    assert m == stage.fields[0].1;
    assert IsJson(m);
    JsonFieldIsJson(m.fields, "userId", Prop(m, "userId"));
    var body := Assign(m.fields, "userId", OId(oid));
    SetMatchKeepsLead(stage, Obj(body));
    AssignReads(m.fields, "userId", OId(oid));
    AssignKeys(m.fields, "userId", OId(oid));
  }

  /**
   * The procedure throws only on a `null` or `undefined` stage that it reads:
   * the first stage, or any stage when there is no leading `$text` match.
   */
  lemma ScopeThrowsOnlyOnNullStage(p: seq<Value>, oid: string, scoped: bool)
    ensures Scope(p, oid, scoped).Throw? <==>
              && scoped
              && ((|p| > 0 && Nullish(p[0])) || (!TextFirst(p, if |p| > 0 then LeadingMatch(p[0]) else Undefined) && !NoNullStage(p)))
    ensures Scope(p, oid, scoped).Throw? ==> Scope(p, oid, scoped).error == TypeError
  {
  }

  /**
   * A stage whose first key is not `$match`, a `$lookup` with a nested pipeline
   * among them, is neither scanned for `userId` nor rewritten.
   */
  lemma OtherStagesNotScanned(stage: Value, oid: string)
    requires StageKey(stage) != "$match"
    ensures !BindsUserId(LeadingMatch(stage))
    ensures Rebind(stage, LeadingMatch(stage), oid) == stage
  {
  }

  /** The caller's id, once written, is what the match body reads. */
  lemma TextMergeIsStable(m: seq<(string, Value)>, oid: string)
    ensures TextMerge(TextMerge(m, oid), oid) == TextMerge(m, oid)
  {
    var u := ("userId", OId(oid));
    var merged := AssignAll([u], m);
    AssignAllKeepsPrefixKeys([u], m);
    assert IndexOf(merged, "userId") == 0;
    var tm := TextMerge(m, oid);
    assert tm == merged[0 := u];
    AssignAllOntoHead(tm);
    AssignSame(tm, "userId", OId(oid));
  }

  /** Scoping what scoping produced changes nothing: no second stage is prepended, no id rewritten. */
  lemma ScopeIdempotent(p: seq<Value>, oid: string, scoped: bool)
    requires forall i :: 0 <= i < |p| ==> IsJson(p[i])
    requires Scope(p, oid, scoped).Ok?
    ensures Scope(Scope(p, oid, scoped).value, oid, scoped) == Scope(p, oid, scoped)
  {
    if !scoped {
    } else if TextFirst(p, if |p| > 0 then LeadingMatch(p[0]) else Undefined) {
      RescopeTextStage(p, oid);
    } else if !SomeStageBinds(p) {
      RescopePrepended(p, oid);
    } else {
      RescopeRebound(p, oid);
    }
  }

  lemma RescopeTextStage(p: seq<Value>, oid: string)
    requires |p| > 0 && IsJson(p[0]) && TextFirst(p, LeadingMatch(p[0]))
    ensures Scope(p, oid, true).Ok? && Scope(Scope(p, oid, true).value, oid, true) == Scope(p, oid, true)
  {
    var m := LeadingMatch(p[0]);
    assert m == p[0].fields[0].1;
    assert IsJson(m);
    var tm := TextMerge(m.fields, oid);
    var q := p[0 := SetMatch(p[0], Obj(tm))];
    assert Scope(p, oid, true) == Ok(q);
    SetMatchKeepsLead(p[0], Obj(tm));
    TextMergeReads(m.fields, oid, "$text");
    assert LeadingMatch(q[0]) == Obj(tm);
    assert TextFirst(q, LeadingMatch(q[0]));
    TextMergeIsStable(m.fields, oid);
    SetMatchKeepsLead(q[0], Obj(tm));
    assert SetMatch(q[0], Obj(tm)) == q[0];
    assert q[0 := q[0]] == q;
  }

  lemma RescopePrepended(p: seq<Value>, oid: string)
    requires !TextFirst(p, if |p| > 0 then LeadingMatch(p[0]) else Undefined)
    requires NoNullStage(p) && !SomeStageBinds(p)
    ensures Scope(Scope(p, oid, true).value, oid, true) == Scope(p, oid, true)
  {
    var q := [UserMatch(oid)] + p;
    assert Scope(p, oid, true) == Ok(q);
    assert LeadingMatch(q[0]) == Obj([("userId", OId(oid))]);
    assert BindsUserId(LeadingMatch(q[0]));
    assert !TextFirst(q, LeadingMatch(q[0]));
    assert NoNullStage(q);
    assert SomeStageBinds(q);
    forall i | 0 <= i < |q| ensures Rebind(q[i], LeadingMatch(q[i]), oid) == q[i] {
      if i > 0 {
        assert q[i] == p[i - 1];
      }
    }
    assert RebindAll(q, oid) == q;
  }

  lemma RescopeRebound(p: seq<Value>, oid: string)
    requires forall i :: 0 <= i < |p| ==> IsJson(p[i])
    requires !TextFirst(p, if |p| > 0 then LeadingMatch(p[0]) else Undefined)
    requires NoNullStage(p) && SomeStageBinds(p)
    ensures Scope(Scope(p, oid, true).value, oid, true) == Scope(p, oid, true)
  {
    var q := RebindAll(p, oid);
    assert Scope(p, oid, true) == Ok(q);
    RebindAllIsStable(p, oid);
    var w :| 0 <= w < |p| && BindsUserId(LeadingMatch(p[w]));
    assert SomeStageBinds(q) by {
      assert BindsUserId(LeadingMatch(q[w]));
    }
    assert |p| > 0;
    assert !TextFirst(q, LeadingMatch(q[0]));
    assert Scope(q, oid, true) == Ok(RebindAll(q, oid));
  }

  /** The overwrite, done twice, on a parsed pipeline. */
  lemma RebindAllIsStable(p: seq<Value>, oid: string)
    requires forall i :: 0 <= i < |p| ==> IsJson(p[i])
    requires NoNullStage(p)
    ensures NoNullStage(RebindAll(p, oid)) && RebindAll(RebindAll(p, oid), oid) == RebindAll(p, oid)
    ensures forall i :: 0 <= i < |p| ==>
              && (BindsUserId(LeadingMatch(p[i])) ==> BindsUserId(LeadingMatch(RebindAll(p, oid)[i])))
              && Prop(LeadingMatch(RebindAll(p, oid)[i]), "$text") == Prop(LeadingMatch(p[i]), "$text")
              && Truthy(LeadingMatch(RebindAll(p, oid)[i])) == Truthy(LeadingMatch(p[i]))
  {
    var q := RebindAll(p, oid);
    forall i | 0 <= i < |p|
      ensures !Nullish(q[i])
      ensures Rebind(q[i], LeadingMatch(q[i]), oid) == q[i]
      ensures BindsUserId(LeadingMatch(p[i])) ==> BindsUserId(LeadingMatch(q[i]))
      ensures Prop(LeadingMatch(q[i]), "$text") == Prop(LeadingMatch(p[i]), "$text")
      ensures Truthy(LeadingMatch(q[i])) == Truthy(LeadingMatch(p[i]))
    {
      RebindIsStable(p[i], oid);
    }
  }

  /** One stage of the overwrite, done twice. */
  lemma RebindIsStable(stage: Value, oid: string)
    requires IsJson(stage) && !Nullish(stage)
    ensures var r := Rebind(stage, LeadingMatch(stage), oid);
            && !Nullish(r)
            && Rebind(r, LeadingMatch(r), oid) == r
            && (BindsUserId(LeadingMatch(stage)) ==> BindsUserId(LeadingMatch(r)))
            && Prop(LeadingMatch(r), "$text") == Prop(LeadingMatch(stage), "$text")
            && Truthy(LeadingMatch(r)) == Truthy(LeadingMatch(stage))
  {
    var m := LeadingMatch(stage);
    if BindsUserId(m) && !Prop(m, "userId").OId? {
      RewrittenStageIsStable(stage, m, oid);
    }
  }

  /** The overwrite when it writes: the new match body binds the caller and keeps `$text`. */
  lemma RewrittenStageIsStable(stage: Value, m: Value, oid: string)
    requires m == LeadingMatch(stage) && BindsUserId(m) && !Prop(m, "userId").OId?
    ensures var r := Rebind(stage, m, oid);
            && r.Obj? && LeadingMatch(r) == Obj(Assign(m.fields, "userId", OId(oid)))
            && Rebind(r, LeadingMatch(r), oid) == r
            && BindsUserId(LeadingMatch(r))
            && Prop(LeadingMatch(r), "$text") == Prop(m, "$text")
  {
    var body := Assign(m.fields, "userId", OId(oid));
    assert StageKey(stage) == "$match";
    SetMatchKeepsLead(stage, Obj(body));
    AssignReads(m.fields, "userId", OId(oid));
    assert Prop(Obj(body), "userId") == OId(oid);
  }

  /** Some stage binds the caller, in a match body with distinct keys. */
  predicate HoldsCallerStage(q: seq<Value>, oid: string) {
    exists i :: 0 <= i < |q| && BindsCaller(q[i], oid) && DistinctKeys(LeadingMatch(q[i]).fields)
  }

  /** After scoping, some stage of a parsed pipeline binds the caller, in a match body with distinct keys. */
  lemma ScopeLeavesCallerStage(p: seq<Value>, oid: string)
    requires forall i :: 0 <= i < |p| ==> IsJson(p[i])
    requires Scope(p, oid, true).Ok?
    ensures exists i :: 0 <= i < |Scope(p, oid, true).value| &&
              BindsCaller(Scope(p, oid, true).value[i], oid) &&
              DistinctKeys(LeadingMatch(Scope(p, oid, true).value[i]).fields)
  {
    if TextFirst(p, if |p| > 0 then LeadingMatch(p[0]) else Undefined) {
      TextMergeLeavesCaller(p, oid);
    } else if !SomeStageBinds(p) {
      var q := Scope(p, oid, true).value;
      assert q == [UserMatch(oid)] + p;
      assert LeadingMatch(UserMatch(oid)) == Obj([("userId", OId(oid))]);
      assert BindsCaller(q[0], oid);
    } else {
      RebindLeavesCaller(p, oid);
    }
  }

  /** The `$text` branch leaves the merged first stage binding the caller. */
  lemma TextMergeLeavesCaller(p: seq<Value>, oid: string)
    requires |p| > 0 && IsJson(p[0]) && TextFirst(p, LeadingMatch(p[0]))
    ensures Scope(p, oid, true).Ok? && HoldsCallerStage(Scope(p, oid, true).value, oid)
  {
    var m := LeadingMatch(p[0]);
    var q := Scope(p, oid, true).value;
    assert q == p[0 := SetMatch(p[0], Obj(TextMerge(m.fields, oid)))];
    SetMatchKeepsLead(p[0], Obj(TextMerge(m.fields, oid)));
    assert BindsCaller(q[0], oid);
  }

  /** The overwrite branch leaves every stage that bound `userId` binding the caller. */
  lemma RebindLeavesCaller(p: seq<Value>, oid: string)
    requires forall i :: 0 <= i < |p| ==> IsJson(p[i])
    requires !TextFirst(p, if |p| > 0 then LeadingMatch(p[0]) else Undefined)
    requires NoNullStage(p) && SomeStageBinds(p)
    ensures Scope(p, oid, true).Ok? && HoldsCallerStage(Scope(p, oid, true).value, oid)
  {
    assert Scope(p, oid, true) == Ok(RebindAll(p, oid));
    var w :| 0 <= w < |p| && BindsUserId(LeadingMatch(p[w]));
    RebindAllHoldsCaller(p, oid, w);
  }

  /** A parsed stage that binds `userId` binds the caller once every stage is overwritten. */
  lemma RebindAllHoldsCaller(p: seq<Value>, oid: string, w: nat)
    requires NoNullStage(p) && w < |p| && IsJson(p[w]) && BindsUserId(LeadingMatch(p[w]))
    ensures HoldsCallerStage(RebindAll(p, oid), oid)
  {
    var q := RebindAll(p, oid);
    RebindsParsedMatch(p[w], oid);
    assert q[w] == Rebind(p[w], LeadingMatch(p[w]), oid);
    assert BindsCaller(q[w], oid) && DistinctKeys(LeadingMatch(q[w]).fields);
  }

  /** A caller-binding stage comes through the walk of line 210 still binding the caller. */
  lemma CallerStageSurvivesWalk(stage: Value, oid: string, now: Day, drv: ObjectIdDriver)
    requires ValidDay(now) && BindsCaller(stage, oid) && DistinctKeys(LeadingMatch(stage).fields)
    ensures InjectStage(stage, now, drv).Ok? && BindsCaller(InjectStage(stage, now, drv).value, oid)
  {
    var body := LeadingMatch(stage).fields;
    assert FirstEntry(stage) == Some(("$match", Obj(body)));
    CallerIdSurvives(stage, body, oid, now, drv);
    MatchBodyNormalized(stage, Obj(body), now, drv);
  }

  /**
   * The tenant guarantee: when a parsed pipeline for one of the nine collections
   * has been scoped and walked, some top-level stage is a `$match` on the
   * caller's own `userId`.
   */
  lemma ScopeBindsCaller(p: seq<Value>, oid: string, now: Day, drv: ObjectIdDriver)
    requires ValidDay(now) && forall i :: 0 <= i < |p| ==> IsJson(p[i])
    requires Scope(p, oid, true).Ok?
    requires InjectDateLogic(Arr(Scope(p, oid, true).value), now, drv).Ok?
    ensures var out := InjectDateLogic(Arr(Scope(p, oid, true).value), now, drv).value;
            out.Arr? && exists i :: 0 <= i < |out.elems| && BindsCaller(out.elems[i], oid)
  {
    var q := Scope(p, oid, true).value;
    ScopeLeavesCallerStage(p, oid);
    var i :| 0 <= i < |q| && BindsCaller(q[i], oid) && DistinctKeys(LeadingMatch(q[i]).fields);
    StagesKeepShape(q, now, drv);
    CallerStageSurvivesWalk(q[i], oid, now, drv);
  }

  /**
   * As written, a `userId` of the language model's in a leading `$text` match overrides the
   * caller's: here the executed match asks only that some `userId` exist.
   */
  lemma AsWrittenTextMergeKeepsModelUserId(oid: string)
    ensures var any := Obj([("$exists", Bool(true))]);
            var text := ("$text", Obj([("$search", Str("x"))]));
            var p := [Obj([("$match", Obj([text, ("userId", any)]))])];
            && ScopeAsWritten(p, oid, true) == Ok([Obj([("$match", Obj([("userId", any), text]))])])
            && Scope(p, oid, true).Ok? && BindsCaller(Scope(p, oid, true).value[0], oid)
  {
    var any := Obj([("$exists", Bool(true))]);
    var text := ("$text", Obj([("$search", Str("x"))]));
    AsWrittenMergeOfExample(oid, any, text.1);
    CorrectedMergeOfExample(oid, any, text.1);
  }

  /** The corrected merge on the example of the first finding binds the caller. */
  lemma CorrectedMergeOfExample(oid: string, any: Value, search: Value)
    requires IsJson(any) && IsJson(search) && Truthy(search)
    ensures var p := [Obj([("$match", Obj([("$text", search), ("userId", any)]))])];
            Scope(p, oid, true).Ok? && BindsCaller(Scope(p, oid, true).value[0], oid)
  {
    var p := [Obj([("$match", Obj([("$text", search), ("userId", any)]))])];
    assert LeadingMatch(p[0]) == Obj([("$text", search), ("userId", any)]);
    TextStageMerged(p, oid);
  }

  /** The as-written merge on the example of the first finding, step by step. */
  lemma AsWrittenMergeOfExample(oid: string, any: Value, search: Value)
    requires Truthy(search)
    ensures var text := ("$text", search);
            var p := [Obj([("$match", Obj([text, ("userId", any)]))])];
            ScopeAsWritten(p, oid, true) == Ok([Obj([("$match", Obj([("userId", any), text]))])])
  {
    var text := ("$text", search);
    var body := [text, ("userId", any)];
    var p := [Obj([("$match", Obj(body))])];
    assert Prop(p[0], "$match") == Obj(body);
    assert Prop(Obj(body), "$text") == search;
    var u := ("userId", OId(oid));
    assert Assign([u], text.0, text.1) == [u, text];
    assert Assign([u, text], "userId", any) == [("userId", any), text];
    assert body[1..] == [("userId", any)];
    calc {
      AssignAll([u], body);
      AssignAll(Assign([u], text.0, text.1), body[1..]);
      AssignAll([u, text], [("userId", any)]);
      AssignAll(Assign([u, text], "userId", any), []);
      [("userId", any), text];
    }
    var merged := AssignAll([u], body);
    assert SetMatch(p[0], Obj(merged)) == Obj([("$match", Obj(merged))]);
    assert TextFirst(p, Prop(p[0], "$match"));
    assert ScopeAsWritten(p, oid, true) == Ok(p[0 := SetMatch(p[0], Obj(merged))]);
    assert p[0 := Obj([("$match", Obj(merged))])] == [Obj([("$match", Obj(merged))])];
  }

  /**
   * As written, a `$match` that is not a stage's first key counts as scoping
   * the pipeline, but the walk keeps only the first key: the pipeline that runs
   * has no `userId` match at all. Corrected, the caller's match is prepended.
   */
  lemma AsWrittenTrailingMatchIsDropped(oid: string, now: Day, drv: ObjectIdDriver)
    requires ValidDay(now)
    ensures var sort := ("$sort", Obj([("createdAt", Num(-1.0))]));
            var p := [Obj([sort, ("$match", Obj([("userId", Str("u"))]))])];
            && ScopeAsWritten(p, oid, true).Ok?
            && InjectDateLogic(Arr(ScopeAsWritten(p, oid, true).value), now, drv) == Ok(Arr([Obj([sort])]))
            && !BindsCaller(Obj([sort]), oid)
            && Scope(p, oid, true) == Ok([UserMatch(oid)] + p)
  {
    var sort := ("$sort", Obj([("createdAt", Num(-1.0))]));
    var mt := ("$match", Obj([("userId", Str("u"))]));
    var p := [Obj([sort, mt])];
    assert Keys(p[0].fields) == ["$sort", "$match"];
    assert Keys(p[0].fields)[1..] == ["$match"];
    assert IndexOf(p[0].fields, "$match") == 1;
    assert Prop(p[0], "$match") == mt.1;
    assert Prop(mt.1, "$text") == Undefined;
    assert BindsUserId(Prop(p[0], "$match"));
    var q := ScopeAsWritten(p, oid, true).value;
    assert q[0].fields[0] == sort;
    assert StageKey(q[0]) == "$sort" && !HasPipeline(q[0]);
    assert |q| == 1;
    OtherStagesCopied(q[0], sort.0, sort.1, now, drv);
    var outs := seq(|q|, i requires 0 <= i < |q| => InjectStage(q[i], now, drv));
    assert outs == [Ok(Obj([sort]))];
    assert seq(|outs|, i requires 0 <= i < |outs| => outs[i].value) == [Obj([sort])];
    assert LeadingMatch(p[0]) == Undefined;
  }

  /**
   * Where every `$match` a stage holds is its first key and a leading `$text`
   * match names no `userId`, the corrected procedure and the one as written agree.
   * Matches that name a `userId` without a `$text`, the usual input of the
   * overwrite branch, are covered.
   */
  lemma ScopeAgreesWithAsWritten(p: seq<Value>, oid: string, scoped: bool)
    requires forall i :: 0 <= i < |p| ==> Prop(p[i], "$match") == LeadingMatch(p[i])
    requires TextFirst(p, if |p| > 0 then LeadingMatch(p[0]) else Undefined) ==> "userId" !in Keys(LeadingMatch(p[0]).fields)
    ensures Scope(p, oid, scoped) == ScopeAsWritten(p, oid, scoped)
  {
    var first := if |p| > 0 then LeadingMatch(p[0]) else Undefined;
    assert first == (if |p| > 0 then Prop(p[0], "$match") else Undefined);
    if !scoped || (|p| > 0 && Nullish(p[0])) {
    } else if TextFirst(p, first) {
      var m := LeadingMatch(p[0]);
      var merged := AssignAll([("userId", OId(oid))], m.fields);
      AssignAllKeepsAbsent([("userId", OId(oid))], m.fields, "userId");
      AssignSame(merged, "userId", OId(oid));
      assert TextMerge(m.fields, oid) == merged;
    } else if !NoNullStage(p) {
    } else {
      assert SomeStageBinds(p) <==> exists i :: 0 <= i < |p| && BindsUserId(Prop(p[i], "$match"));
      if SomeStageBinds(p) {
        assert RebindAll(p, oid) == seq(|p|, i requires 0 <= i < |p| => Rebind(p[i], Prop(p[i], "$match"), oid));
      }
    }
  }
}
