/**
 * `injectDateLogicIntoPipeline`: a map over the stages of an aggregation
 * pipeline that builds a fresh one-key stage from each stage's first key.
 * `$match` bodies are rewritten by `processDateFilters`, the nested pipeline of
 * a `$lookup` is walked in turn, and every other stage value is copied.
 */
module PlanWalker {
  import opened Calendar
  import opened JsValue
  import opened TypeNormalizer

  /** The key `Object.keys(stage)[0]` names, written as the string it becomes as a property name. */
  function StageKey(stage: Value): string {
    match FirstEntry(stage)
    case Some(e) => e.0
    case None => "undefined"
  }

  /** A `$lookup` stage whose value is an object with a truthy `pipeline`. */
  predicate HasPipeline(stage: Value) {
    && stage.Obj? && |stage.fields| > 0 && stage.fields[0].0 == "$lookup"
    && var v := stage.fields[0].1;
       IsObjectType(v) && !v.Null? && Truthy(Prop(v, "pipeline"))
  }

  /** The `pipeline` of such a `$lookup`. */
  function NestedPipeline(stage: Value): (q: Value)
    requires HasPipeline(stage)
    ensures Lookup(stage.fields[0].1.fields, "pipeline") == Some(q)
  {
    var lfs := stage.fields[0].1.fields;
    lfs[IndexOf(lfs, "pipeline")].1
  }

  /** `injectDateLogicIntoPipeline(p)`: the new pipeline, or the TypeError a stage raises. */
  function InjectDateLogic(p: Value, now: Day, drv: ObjectIdDriver): (r: Outcome<Value>)
    requires ValidDay(now)
    ensures !p.Arr? ==> r == Ok(p)
    ensures p.Arr? && r.Ok? ==> r.value.Arr? && |r.value.elems| == |p.elems|
    ensures r.Throw? ==> r.error == TypeError
    decreases p, 2
  {
    if !Truthy(p) || !p.Arr? then Ok(p)
    else
      var outs := seq(|p.elems|, i requires 0 <= i < |p.elems| => InjectStage(p.elems[i], now, drv));
      if exists i :: 0 <= i < |outs| && outs[i].Throw? then Throw(TypeError)
      else Ok(Arr(seq(|outs|, i requires 0 <= i < |outs| => outs[i].value)))
  }

  /** The callback of the `map`: one stage in, one fresh stage out. */
  function InjectStage(stage: Value, now: Day, drv: ObjectIdDriver): (r: Outcome<Value>)
    requires ValidDay(now)
    ensures Nullish(stage) ==> r.Throw?
    ensures r.Ok? ==> r.value.Obj? && |r.value.fields| == 1 && r.value.fields[0].0 == StageKey(stage)
    ensures r.Throw? ==> r.error == TypeError
    decreases stage, 1
  {
    // Object.keys(null) and Object.keys(undefined) throw
    if Nullish(stage) then Throw(TypeError)
    else match FirstEntry(stage)
      // no key: newStage[undefined] = stage[undefined]
      case None => Ok(Obj([("undefined", Undefined)]))
      case Some(e) =>
        if e.0 == "$match" then Ok(Obj([("$match", Normalize(e.1, now, drv))]))
        else if HasPipeline(stage) then
          match InjectDateLogic(NestedPipeline(stage), now, drv)
          case Throw(err) => Throw(err)
          case Ok(q) => Ok(Obj([("$lookup", Obj(Assign(AssignAll([], e.1.fields), "pipeline", q)))]))
        else Ok(Obj([e]))
  }

  /** Some stage, at the top or inside a walked `$lookup` pipeline, is `null` or `undefined`. */
  predicate ReachesNullStage(p: Value)
    decreases p, 2
  {
    p.Arr? && exists i :: 0 <= i < |p.elems| && NullStageAt(p.elems[i])
  }

  predicate NullStageAt(stage: Value)
    decreases stage, 1
  {
    Nullish(stage) || (HasPipeline(stage) && ReachesNullStage(NestedPipeline(stage)))
  }

  /** Anything but an array is returned as it is. */
  lemma NonArrayUnchanged(p: Value, now: Day, drv: ObjectIdDriver)
    requires ValidDay(now) && !p.Arr?
    ensures InjectDateLogic(p, now, drv) == Ok(p)
  {
  }

  /** The walk throws exactly when it meets a `null` or `undefined` stage. */
  lemma {:induction false} ThrowsIffNullStage(p: Value, now: Day, drv: ObjectIdDriver)
    requires ValidDay(now)
    ensures InjectDateLogic(p, now, drv).Throw? <==> ReachesNullStage(p)
    decreases p, 2
  {
    if p.Arr? {
      forall i | 0 <= i < |p.elems|
        ensures InjectStage(p.elems[i], now, drv).Throw? <==> NullStageAt(p.elems[i])
      {
        StageThrowsIffNull(p.elems[i], now, drv);
      }
      var outs := seq(|p.elems|, i requires 0 <= i < |p.elems| => InjectStage(p.elems[i], now, drv));
      if ReachesNullStage(p) {
        var i :| 0 <= i < |p.elems| && NullStageAt(p.elems[i]);
        assert outs[i].Throw?;
      } else {
        assert forall i :: 0 <= i < |outs| ==> outs[i].Ok?;
      }
    }
  }

  lemma {:induction false} StageThrowsIffNull(stage: Value, now: Day, drv: ObjectIdDriver)
    requires ValidDay(now)
    ensures InjectStage(stage, now, drv).Throw? <==> NullStageAt(stage)
    decreases stage, 1
  {
    if HasPipeline(stage) {
      ThrowsIffNullStage(NestedPipeline(stage), now, drv);
    }
  }

  /**
   * An array comes back as an array of the same length; stage `i` of the result
   * is a fresh object with the single key that was stage `i`'s first key.
   */
  lemma StagesKeepShape(es: seq<Value>, now: Day, drv: ObjectIdDriver)
    requires ValidDay(now) && InjectDateLogic(Arr(es), now, drv).Ok?
    ensures InjectDateLogic(Arr(es), now, drv).value.Arr?
    ensures |InjectDateLogic(Arr(es), now, drv).value.elems| == |es|
    ensures forall i :: 0 <= i < |es| ==>
              && InjectStage(es[i], now, drv).Ok?
              && InjectDateLogic(Arr(es), now, drv).value.elems[i] == InjectStage(es[i], now, drv).value
              && InjectStage(es[i], now, drv).value.Obj?
              && |InjectStage(es[i], now, drv).value.fields| == 1
              && InjectStage(es[i], now, drv).value.fields[0].0 == StageKey(es[i])
  {
    var outs := seq(|es|, i requires 0 <= i < |es| => InjectStage(es[i], now, drv));
    assert !exists i :: 0 <= i < |outs| && outs[i].Throw?;
    forall i | 0 <= i < |es|
      ensures InjectStage(es[i], now, drv).Ok?
      ensures InjectStage(es[i], now, drv).value.Obj?
      ensures |InjectStage(es[i], now, drv).value.fields| == 1
      ensures InjectStage(es[i], now, drv).value.fields[0].0 == StageKey(es[i])
    {
      assert outs[i].Ok?;
      StageShape(es[i], now, drv);
    }
  }

  /** A stage that does not throw becomes an object with one key, the stage's first key. */
  lemma StageShape(stage: Value, now: Day, drv: ObjectIdDriver)
    requires ValidDay(now) && InjectStage(stage, now, drv).Ok?
    ensures InjectStage(stage, now, drv).value.Obj?
    ensures |InjectStage(stage, now, drv).value.fields| == 1
    ensures InjectStage(stage, now, drv).value.fields[0].0 == StageKey(stage)
  {
  }

  /** A `$match` stage keeps only its body, rewritten by `processDateFilters`. */
  lemma MatchBodyNormalized(stage: Value, body: Value, now: Day, drv: ObjectIdDriver)
    requires ValidDay(now) && !Nullish(stage) && FirstEntry(stage) == Some(("$match", body))
    ensures InjectStage(stage, now, drv) == Ok(Obj([("$match", Normalize(body, now, drv))]))
  {
  }

  /**
   * A `$lookup` with a truthy `pipeline` keeps every other field of its value and
   * holds the walked nested pipeline instead of the old one.
   */
  lemma LookupPipelineWalked(fs: seq<(string, Value)>, lfs: seq<(string, Value)>, inner: Value, now: Day, drv: ObjectIdDriver)
    requires ValidDay(now) && |fs| > 0 && fs[0] == ("$lookup", Obj(lfs)) && DistinctKeys(lfs)
    requires Lookup(lfs, "pipeline") == Some(inner) && Truthy(inner)
    requires InjectDateLogic(inner, now, drv).Ok?
    ensures InjectStage(Obj(fs), now, drv).Ok?
    ensures var out := InjectStage(Obj(fs), now, drv).value;
            && out.Obj? && |out.fields| == 1 && out.fields[0].0 == "$lookup"
            && out.fields[0].1.Obj?
            && Lookup(out.fields[0].1.fields, "pipeline") == Some(InjectDateLogic(inner, now, drv).value)
            && (forall k :: k != "pipeline" ==> Lookup(out.fields[0].1.fields, k) == Lookup(lfs, k))
            && Keys(out.fields[0].1.fields) == Keys(lfs)
  {
    var q := InjectDateLogic(inner, now, drv).value;
    LookupStageRebuilt(fs, lfs, inner, now, drv);
    AssignReads(lfs, "pipeline", q);
  }

  /** Such a `$lookup` becomes its spread copy with the walked pipeline written in. */
  lemma LookupStageRebuilt(fs: seq<(string, Value)>, lfs: seq<(string, Value)>, inner: Value, now: Day, drv: ObjectIdDriver)
    requires ValidDay(now) && |fs| > 0 && fs[0] == ("$lookup", Obj(lfs)) && DistinctKeys(lfs)
    requires Lookup(lfs, "pipeline") == Some(inner) && Truthy(inner)
    requires InjectDateLogic(inner, now, drv).Ok?
    ensures InjectStage(Obj(fs), now, drv) == Ok(Obj([("$lookup", Obj(Assign(lfs, "pipeline", InjectDateLogic(inner, now, drv).value)))]))
  {
    assert HasPipeline(Obj(fs));
    assert NestedPipeline(Obj(fs)) == inner;
    SpreadCopies(lfs);
  }

  /** Every other stage is copied under its first key, its value untouched. */
  lemma OtherStagesCopied(stage: Value, k: string, v: Value, now: Day, drv: ObjectIdDriver)
    requires ValidDay(now) && !Nullish(stage) && FirstEntry(stage) == Some((k, v))
    requires k != "$match" && !HasPipeline(stage)
    ensures InjectStage(stage, now, drv) == Ok(Obj([(k, v)]))
  {
  }

  /** An `ObjectId` under `userId` in a `$match` body is still there after the walk. */
  lemma CallerIdSurvives(stage: Value, body: seq<(string, Value)>, h: string, now: Day, drv: ObjectIdDriver)
    requires ValidDay(now) && !Nullish(stage) && FirstEntry(stage) == Some(("$match", Obj(body)))
    requires DistinctKeys(body) && Lookup(body, "userId") == Some(OId(h))
    ensures InjectStage(stage, now, drv).Ok?
    ensures InjectStage(stage, now, drv).value.fields[0].1.Obj?
    ensures Lookup(InjectStage(stage, now, drv).value.fields[0].1.fields, "userId") == Some(OId(h))
  {
    FieldRewritten(body, "userId", OId(h), now, drv);
    ObjectsKeepKeys(body, now, drv);
  }
}
