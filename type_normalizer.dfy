/**
 * `processDateFilters`: the recursive rewrite of a `$match` body. Field by field,
 * in a fixed order of rules, a `$text` operand is copied, a relative-date
 * phrase under a date-like key becomes a date range, an identifier-shaped
 * string under an `...Id` or `_id` key becomes an `ObjectId`, nested objects
 * and arrays are rewritten in turn, and everything else is copied.
 */
module TypeNormalizer {
  import opened Calendar
  import opened JsValue
  import opened JsString
  import opened RelativeDate

  /** `key.includes('date') || key.includes('Date') || key.includes('remindAt') || key.includes('createdAt')` */
  predicate IsDateKey(k: string) {
    Contains(k, "date") || Contains(k, "Date") || Contains(k, "remindAt") || Contains(k, "createdAt")
  }

  /** `key.endsWith('Id') || key === '_id'` */
  predicate IsIdKey(k: string) {
    EndsWith(k, "Id") || k == "_id"
  }

  /** The result of `processDateFilters(v)` on the day `now`. */
  function Normalize(v: Value, now: Day, drv: ObjectIdDriver): (r: Value)
    requires ValidDay(now)
    ensures v.Arr? ==> r.Arr? && |r.elems| == |v.elems|
    ensures v.Obj? || v.DateVal? ==> r.Obj?
    ensures !v.Arr? && !v.Obj? && !v.DateVal? ==> r == v
    decreases v, 1
  {
    match v
    case Arr(es) => Arr(seq(|es|, i requires 0 <= i < |es| => Normalize(es[i], now, drv)))
    case Obj(fs) => Obj(AssignAll([], NormalizeEntries(fs, now, drv)))
    // a Date is an object with no enumerable own key: the loop builds `{}`
    case DateVal(_) => Obj([])
    case _ => v
  }

  /** Each field of an object paired with the value the loop body stores for it. */
  function NormalizeEntries(fs: seq<(string, Value)>, now: Day, drv: ObjectIdDriver): (es: seq<(string, Value)>)
    requires ValidDay(now)
    ensures |es| == |fs| && Keys(es) == Keys(fs)
    decreases Obj(fs), 0
  {
    seq(|fs|, i requires 0 <= i < |fs| => (fs[i].0, NormalizeEntry(fs[i].0, fs[i].1, now, drv)))
  }

  /** The value the body of the `for...in` loop stores under `key` for `value`. */
  function NormalizeEntry(key: string, value: Value, now: Day, drv: ObjectIdDriver): (r: Value)
    requires ValidDay(now)
    ensures key == "$text" ==> r == value
    ensures value.Str? ==> r == value || r.OId? || (IsDateKey(key) && IsDateCondition(r))
    ensures !value.Str? && !value.Arr? && !value.Obj? && !value.DateVal? ==> r == value
    decreases value, 2
  {
    if key == "$text" then value
    else if value.Str? && IsDateKey(key) && IsDateCondition(ParseRelativeDate(value, now)) then
      ParseRelativeDate(value, now)
    else if value.Str? && IsIdKey(key) && drv.isValid(value.s) then
      (match drv.construct(value.s)
       case Some(h) => OId(h)
       case None => value)   // the catch block keeps the string
    else if IsObjectType(value) && !value.Null? && !value.Arr? && !value.OId? then
      Normalize(value, now, drv)
    else if value.Arr? then
      Normalize(value, now, drv)
    else
      value
  }

  /**
   * `processDateFilters(filters)` as the source writes it: an early return for
   * non-objects, arrays mapped element by element, a fresh object filled key
   * by key in a `for...in` loop.
   */
  method ProcessDateFilters(filters: Value, now: Day, drv: ObjectIdDriver) returns (r: Value)
    requires ValidDay(now)
    ensures r == Normalize(filters, now, drv)
    decreases filters, 1
  {
    if !Truthy(filters) || !IsObjectType(filters) {
      return filters;
    }
    if filters.Arr? {
      var items := filters.elems;
      var out: seq<Value> := [];
      for i := 0 to |items|
        invariant out == seq(i, j requires 0 <= j < i => Normalize(items[j], now, drv))
      {
        var item := ProcessDateFilters(items[i], now, drv);
        out := out + [item];
      }
      return Arr(out);
    }
    if filters.OId? {
      return filters;
    }
    // an object, or a Date whose for...in visits no key
    var fs := if filters.Obj? then filters.fields else [];
    ghost var entries := NormalizeEntries(fs, now, drv);
    var processed: seq<(string, Value)> := [];
    for i := 0 to |fs|
      invariant AssignAll(processed, entries[i..]) == AssignAll([], entries)
    {
      var key := fs[i].0;
      var value := fs[i].1;
      assert entries[i..][0] == (key, NormalizeEntry(key, value, now, drv)) && entries[i..][1..] == entries[i + 1..];
      var stored := ProcessEntry(key, value, now, drv);
      processed := Assign(processed, key, stored);
    }
    return Obj(processed);
  }

  /**
   * One pass of the `for...in` body: the value it stores under `key`, by the
   * first rule that applies.
   */
  method ProcessEntry(key: string, value: Value, now: Day, drv: ObjectIdDriver) returns (stored: Value)
    requires ValidDay(now)
    ensures stored == NormalizeEntry(key, value, now, drv)
    decreases value, 2
  {
    if key == "$text" {
      return value;
    }
    if value.Str? && IsDateKey(key) {
      var dateCondition := ParseRelativeDate(value, now);
      if IsDateCondition(dateCondition) {
        return dateCondition;
      }
    }
    if value.Str? && IsIdKey(key) && drv.isValid(value.s) {
      var made := drv.construct(value.s);
      if made.Some? {
        return OId(made.value);
      }
      stored := value;
    } else if IsObjectType(value) && !value.Null? && !value.Arr? && !value.OId? {
      stored := ProcessDateFilters(value, now, drv);
    } else if value.Arr? {
      stored := ProcessDateFilters(value, now, drv);
    } else {
      stored := value;
    }
  }

  /** Values that are not objects, `null` and `ObjectId`s come back unchanged. */
  lemma ScalarsUnchanged(v: Value, now: Day, drv: ObjectIdDriver)
    requires ValidDay(now) && !v.Arr? && !v.Obj? && !v.DateVal?
    ensures Normalize(v, now, drv) == v
  {
  }

  /** Arrays are rewritten element by element, keeping their length and order. */
  lemma ArraysMapped(es: seq<Value>, now: Day, drv: ObjectIdDriver)
    requires ValidDay(now)
    ensures Normalize(Arr(es), now, drv).Arr?
    ensures |Normalize(Arr(es), now, drv).elems| == |es|
    ensures forall i :: 0 <= i < |es| ==> Normalize(Arr(es), now, drv).elems[i] == Normalize(es[i], now, drv)
  {
  }

  /** A `Date` has no enumerable key, so it becomes the empty object. */
  lemma DateBecomesEmptyObject(d: Day, now: Day, drv: ObjectIdDriver)
    requires ValidDay(now)
    ensures Normalize(DateVal(d), now, drv) == Obj([])
  {
  }

  /**
   * An object keeps exactly its key set; when its keys are distinct (as in every
   * JavaScript object) it keeps them in the same order, each field holding the
   * value that the rules give it.
   */
  lemma ObjectsKeepKeys(fs: seq<(string, Value)>, now: Day, drv: ObjectIdDriver)
    requires ValidDay(now)
    ensures Normalize(Obj(fs), now, drv).Obj?
    ensures forall k :: k in Keys(Normalize(Obj(fs), now, drv).fields) <==> k in Keys(fs)
    ensures DistinctKeys(fs) ==> Normalize(Obj(fs), now, drv).fields == NormalizeEntries(fs, now, drv)
    ensures DistinctKeys(fs) ==> Keys(Normalize(Obj(fs), now, drv).fields) == Keys(fs)
  {
    var es := NormalizeEntries(fs, now, drv);
    assert Normalize(Obj(fs), now, drv) == Obj(AssignAll([], es));
    FoldOntoEmptyKeys(fs, es);
    if DistinctKeys(fs) {
      FoldOntoEmptyAppends(fs, es);
    }
  }

  /** Assigning fields that carry the keys of `fs` onto `{}` gives the keys of `fs`. */
  lemma FoldOntoEmptyKeys(fs: seq<(string, Value)>, es: seq<(string, Value)>)
    requires Keys(es) == Keys(fs)
    ensures forall k :: k in Keys(AssignAll([], es)) <==> k in Keys(fs)
  {
    AssignAllKeys([], es);
  }

  /** When those keys are distinct the assignments just append the fields. */
  lemma FoldOntoEmptyAppends(fs: seq<(string, Value)>, es: seq<(string, Value)>)
    requires Keys(es) == Keys(fs) && DistinctKeys(fs)
    ensures AssignAll([], es) == es
  {
    SameKeysDistinct(fs, es);
    assert [] + es == es;
    AssignAllAppends([], es);
  }

  /** In an object with distinct keys, each key reads the rewritten value of its field. */
  lemma FieldRewritten(fs: seq<(string, Value)>, k: string, v: Value, now: Day, drv: ObjectIdDriver)
    requires ValidDay(now) && DistinctKeys(fs) && Lookup(fs, k) == Some(v)
    ensures Lookup(Normalize(Obj(fs), now, drv).fields, k) == Some(NormalizeEntry(k, v, now, drv))
  {
    ObjectsKeepKeys(fs, now, drv);
    var es := NormalizeEntries(fs, now, drv);
    var i := IndexOf(fs, k);
    assert Keys(es) == Keys(fs);
    assert IndexOf(es, k) == i;
  }

  /** The operand of `$text` is copied as it is, whatever it holds. */
  lemma TextCopiedVerbatim(fs: seq<(string, Value)>, v: Value, now: Day, drv: ObjectIdDriver)
    requires ValidDay(now) && DistinctKeys(fs) && Lookup(fs, "$text") == Some(v)
    ensures Lookup(Normalize(Obj(fs), now, drv).fields, "$text") == Some(v)
  {
    FieldRewritten(fs, "$text", v, now, drv);
  }

  /**
   * Under a key that is both date-like and identifier-like (`dueDateId`), a
   * relative-date phrase becomes a range, whatever the `ObjectId` driver says.
   */
  lemma DatePhraseWinsOverObjectId(key: string, s: string, now: Day, drv: ObjectIdDriver)
    requires ValidDay(now) && key != "$text" && IsDateKey(key) && IsIdKey(key) && IsRelativePhrase(s)
    ensures NormalizeEntry(key, Str(s), now, drv) == ParseRelativeDate(Str(s), now)
    ensures IsDateCondition(NormalizeEntry(key, Str(s), now, drv))
  {
    RecognisedIffPhrase(s, now);
  }

  /**
   * A string that is not a relative-date phrase falls through to the `ObjectId`
   * rule, whatever its key: it becomes an `ObjectId` when the driver accepts
   * and builds one, and is copied otherwise.
   */
  lemma UnrecognisedDateFallsThrough(key: string, s: string, now: Day, drv: ObjectIdDriver)
    requires ValidDay(now) && key != "$text" && !IsRelativePhrase(s)
    ensures IsIdKey(key) && drv.isValid(s) && drv.construct(s).Some? ==>
              NormalizeEntry(key, Str(s), now, drv) == OId(drv.construct(s).value)
    ensures !(IsIdKey(key) && drv.isValid(s) && drv.construct(s).Some?) ==>
              NormalizeEntry(key, Str(s), now, drv) == Str(s)
  {
    RecognisedIffPhrase(s, now);
  }

  /** An `ObjectId` survives, at the top and under any key. */
  lemma ObjectIdsSurvive(key: string, h: string, now: Day, drv: ObjectIdDriver)
    requires ValidDay(now)
    ensures Normalize(OId(h), now, drv) == OId(h)
    ensures NormalizeEntry(key, OId(h), now, drv) == OId(h)
  {
  }

  /**
   * Rewriting twice is not rewriting once: the range made for "today" holds
   * `Date`s, and a second pass turns each of them into `{}`.
   */
  lemma NotIdempotent(now: Day, drv: ObjectIdDriver)
    requires ValidDay(now)
    ensures var once := Normalize(Obj([("date", Str(Today))]), now, drv);
            Normalize(once, now, drv) != once
  {
    PhrasesAreLowerCase();
    LowerOfLowerCase(Today);
    assert StartsWith("date", "date");
    var range := Range(now, NextDay(now));
    assert ParseRelativeDate(Str(Today), now) == range;
    assert Prop(range, "$gte") == DateVal(now);
    assert NormalizeEntry("date", Str(Today), now, drv) == range;
    ObjectsKeepKeys([("date", Str(Today))], now, drv);
    var once := Normalize(Obj([("date", Str(Today))]), now, drv);
    assert once == Obj([("date", range)]);
    ObjectsKeepKeys(range.fields, now, drv);
    assert NormalizeEntry("$gte", DateVal(now), now, drv) == Obj([]);
    assert Normalize(range, now, drv).fields[0] == ("$gte", Obj([]));
    assert NormalizeEntry("date", range, now, drv) == Normalize(range, now, drv);
    ObjectsKeepKeys([("date", range)], now, drv);
    assert Normalize(once, now, drv).fields[0].1 != range;
  }
}
