/**
 * `parseRelativeDate`: the three relative-date phrases the service understands,
 * each turned into a half-open range of local midnights `{$gte, $lt}`.
 * The clock reading `new Date()` is the parameter `now`, a calendar day.
 */
module RelativeDate {
  import opened Calendar
  import opened JsValue
  import opened JsString

  const LastMonth: string := "last month"
  const ThisMonth: string := "this month"
  const Today: string := "today"

  /** The range object `{ $gte: lo, $lt: hi }`. */
  function Range(lo: Day, hi: Day): Value {
    Obj([("$gte", DateVal(lo)), ("$lt", DateVal(hi))])
  }

  /** The first of the month before `now`'s (`new Date(y, m - 1, 1)`). */
  function LastMonthStart(now: Day): Day { MonthStart(now.year, now.month - 1) }

  /** The first of `now`'s month (`new Date(y, m, 1)`). */
  function ThisMonthStart(now: Day): Day { MonthStart(now.year, now.month) }

  /** The first of the month after `now`'s (`new Date(y, m + 1, 1)`). */
  function NextMonthStart(now: Day): Day { MonthStart(now.year, now.month + 1) }

  /** `parseRelativeDate(dateString)` evaluated on the day `now`. */
  function ParseRelativeDate(v: Value, now: Day): (r: Value)
    requires ValidDay(now)
    ensures r == v || (v.Str? && r.Obj? && Keys(r.fields) == ["$gte", "$lt"] && IsDateCondition(r))
  {
    if !v.Str? then v
    else
      var lower := ToLowerAscii(v.s);
      if lower == LastMonth then Range(LastMonthStart(now), ThisMonthStart(now))
      else if lower == ThisMonth then Range(ThisMonthStart(now), NextMonthStart(now))
      else if lower == Today then Range(now, NextDay(now))
      else v
  }

  /** The string is one of the three phrases, in any mix of letter case. */
  predicate IsRelativePhrase(s: string) {
    CaseVariantOf(s, LastMonth) || CaseVariantOf(s, ThisMonth) || CaseVariantOf(s, Today)
  }

  /**
   * The test `processDateFilters` applies to the answer: `typeof c === 'object'
   * && c !== null && (c.$gte || c.$lte)`.
   */
  predicate IsDateCondition(c: Value) {
    IsObjectType(c) && !c.Null? && (Truthy(Prop(c, "$gte")) || Truthy(Prop(c, "$lte")))
  }

  /** Anything but a string comes back unchanged. */
  lemma NonStringUnchanged(v: Value, now: Day)
    requires ValidDay(now) && !v.Str?
    ensures ParseRelativeDate(v, now) == v
  {
  }

  lemma PhrasesAreLowerCase()
    ensures forall i :: 0 <= i < |LastMonth| ==> !('A' <= LastMonth[i] <= 'Z')
    ensures forall i :: 0 <= i < |ThisMonth| ==> !('A' <= ThisMonth[i] <= 'Z')
    ensures forall i :: 0 <= i < |Today| ==> !('A' <= Today[i] <= 'Z')
  {
  }

  /**
   * A string is recognised exactly when it is one of the three phrases up to
   * letter case; otherwise it comes back unchanged. Recognition is what the
   * date rule of `processDateFilters` tests for.
   */
  lemma RecognisedIffPhrase(s: string, now: Day)
    requires ValidDay(now)
    ensures IsRelativePhrase(s) <==> ParseRelativeDate(Str(s), now) != Str(s)
    ensures IsRelativePhrase(s) <==> IsDateCondition(ParseRelativeDate(Str(s), now))
    ensures !IsRelativePhrase(s) ==> ParseRelativeDate(Str(s), now) == Str(s)
  {
    PhrasesAreLowerCase();
    LowerEqualsIffCaseVariant(s, LastMonth);
    LowerEqualsIffCaseVariant(s, ThisMonth);
    LowerEqualsIffCaseVariant(s, Today);
  }

  /**
   * Every range produced is a pair of valid midnights with `$gte` strictly
   * before `$lt`, and it holds `now`: `$gte <= now < $lt`.
   */
  lemma RangesAreHalfOpen(s: string, now: Day)
    requires ValidDay(now)
    requires ParseRelativeDate(Str(s), now) != Str(s)
    ensures exists lo, hi ::
              && ParseRelativeDate(Str(s), now) == Range(lo, hi)
              && ValidDay(lo) && ValidDay(hi) && Before(lo, hi)
    ensures CaseVariantOf(s, ThisMonth) || CaseVariantOf(s, Today) ==>
              exists lo, hi ::
                && ParseRelativeDate(Str(s), now) == Range(lo, hi)
                && !Before(now, lo) && Before(now, hi)
  {
    RecognisedIffPhrase(s, now);
    PhrasesAreLowerCase();
    LowerEqualsIffCaseVariant(s, LastMonth);
    LowerEqualsIffCaseVariant(s, ThisMonth);
    LowerEqualsIffCaseVariant(s, Today);
    DayWithinItsMonth(now);
    MonthStartsAdvance(now.year, now.month - 1);
    MonthStartsAdvance(now.year, now.month);
    var lower := ToLowerAscii(s);
    if lower == LastMonth {
      assert ParseRelativeDate(Str(s), now) == Range(LastMonthStart(now), ThisMonthStart(now));
    } else if lower == ThisMonth {
      assert ParseRelativeDate(Str(s), now) == Range(ThisMonthStart(now), NextMonthStart(now));
    } else {
      assert ParseRelativeDate(Str(s), now) == Range(now, NextDay(now));
    }
  }

  /** "last month" ends exactly where "this month" begins. */
  lemma LastMonthMeetsThisMonth(last: string, current: string, now: Day)
    requires ValidDay(now)
    requires CaseVariantOf(last, LastMonth) && CaseVariantOf(current, ThisMonth)
    ensures ParseRelativeDate(Str(last), now) == Range(LastMonthStart(now), ThisMonthStart(now))
    ensures ParseRelativeDate(Str(current), now) == Range(ThisMonthStart(now), NextMonthStart(now))
  {
    PhrasesAreLowerCase();
    LowerEqualsIffCaseVariant(last, LastMonth);
    LowerEqualsIffCaseVariant(current, ThisMonth);
    assert ThisMonth[0] != LastMonth[0];
  }

  /** In January, "last month" starts on the first of December of the year before. */
  lemma JanuaryLastMonthIsPreviousDecember(last: string, now: Day)
    requires ValidDay(now) && now.month == 0 && CaseVariantOf(last, LastMonth)
    ensures ParseRelativeDate(Str(last), now) == Range(Day(now.year - 1, 11, 1), Day(now.year, 0, 1))
  {
    PhrasesAreLowerCase();
    LowerEqualsIffCaseVariant(last, LastMonth);
  }

  /** In December, "this month" ends on the first of January of the year after. */
  lemma DecemberThisMonthEndsInNextYear(current: string, now: Day)
    requires ValidDay(now) && now.month == 11 && CaseVariantOf(current, ThisMonth)
    ensures ParseRelativeDate(Str(current), now) == Range(Day(now.year, 11, 1), Day(now.year + 1, 0, 1))
  {
    PhrasesAreLowerCase();
    LowerEqualsIffCaseVariant(current, ThisMonth);
    assert ThisMonth[0] != LastMonth[0];
  }

  /** "today" covers exactly one calendar day: the only valid day in its range is `now`. */
  lemma TodayIsOneDay(today: string, now: Day, e: Day)
    requires ValidDay(now) && ValidDay(e) && CaseVariantOf(today, Today)
    ensures ParseRelativeDate(Str(today), now) == Range(now, NextDay(now))
    ensures !Before(e, now) && Before(e, NextDay(now)) <==> e == now
  {
    PhrasesAreLowerCase();
    LowerEqualsIffCaseVariant(today, Today);
    assert |Today| != |LastMonth| && |Today| != |ThisMonth|;
    NextDayIsSuccessor(now, e);
  }
}
