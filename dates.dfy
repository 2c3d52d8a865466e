/** The active dates of a year (`date_attive_anno`): every date of the year
    whose weekday, and in the current engine whose month, is active. */
module Dates {
  import opened Util
  import opened Calendar
  import opened Database

  const AllMonths: set<int> := {1, 2, 3, 4, 5, 6, 7, 8, 9, 10, 11, 12}

  /** The weekday filter: numbers outside 0..6 are dropped, and Friday,
      Saturday and Sunday stand in when nothing is left. */
  function ActiveWeekdays(weekdays: set<int>): (r: set<int>)
    ensures r != {} && forall w :: w in r ==> 0 <= w <= 6
    ensures (exists w :: w in weekdays && 0 <= w <= 6) ==>
      forall w :: w in r <==> w in weekdays && 0 <= w <= 6
    ensures (forall w :: w in weekdays ==> !(0 <= w <= 6)) ==> r == DefaultActiveWeekdays
  {
    var kept := set w | w in weekdays && 0 <= w <= 6;
    assert 4 in DefaultActiveWeekdays;
    assert (exists w :: w in weekdays && 0 <= w <= 6) ==> kept != {} by {
      if exists w :: w in weekdays && 0 <= w <= 6 {
        var w :| w in weekdays && 0 <= w <= 6;
        assert w in kept;
      }
    }
    if kept == {} then DefaultActiveWeekdays else kept
  }

  /** The month filter: no filter, an empty one, or one with no month in
      1..12 means every month. */
  function ActiveMonths(months: Option<set<int>>): (r: set<int>)
    ensures r != {} && forall m :: m in r ==> 1 <= m <= 12
    ensures months.Some? && (exists m :: m in months.value && 1 <= m <= 12) ==>
      forall m :: m in r <==> m in months.value && 1 <= m <= 12
    ensures months.None? || (forall m :: m in months.value ==> !(1 <= m <= 12)) ==> r == AllMonths
  {
    assert 1 in AllMonths;
    if months.None? || months.value == {} then AllMonths
    else
      var kept := set m | m in months.value && 1 <= m <= 12;
      assert (exists m :: m in months.value && 1 <= m <= 12) ==> kept != {} by {
        if exists m :: m in months.value && 1 <= m <= 12 {
          var m :| m in months.value && 1 <= m <= 12;
          assert m in kept;
        }
      }
      if kept == {} then AllMonths else kept
  }

  predicate Active(d: Date, weekdays: set<int>, months: set<int>)
    requires ValidDate(d)
  {
    Weekday(d) in weekdays && d.month in months
  }

  /** Every valid date before the day after `g` is `g` or a date before it. */
  lemma NextDayCovers(g: Date)
    requires ValidDate(g)
    ensures forall x :: ValidDate(x) ==> (Before(x, NextDay(g)) <==> AtOrBefore(x, g))
    ensures Before(g, NextDay(g))
  {
    forall x | ValidDate(x) ensures Before(x, NextDay(g)) <==> AtOrBefore(x, g) {
      NextDaySuccessor(g, x);
    }
    NextDaySuccessor(g, g);
  }

  /** `date_attive_anno` of the current engine: the dates of `anno`, in
      ascending order, whose weekday and month pass the filters. */
  method DateAttiveAnno(anno: int, weekdays: set<int>, months: Option<set<int>>) returns (r: seq<Date>)
    requires 1 <= anno <= 9998
    ensures StrictlyAscending(r)
    ensures forall i :: 0 <= i < |r| ==>
      ValidDate(r[i]) && r[i].year == anno && Active(r[i], ActiveWeekdays(weekdays), ActiveMonths(months))
    ensures forall d :: ValidDate(d) && d.year == anno && Active(d, ActiveWeekdays(weekdays), ActiveMonths(months)) ==> d in r
  {
    var giorniAttivi := ActiveWeekdays(weekdays);
    var mesiAttivi := ActiveMonths(months);
    var giorno := Date(anno, 1, 1);
    var fine := Date(anno, 12, 31);
    r := [];
    while AtOrBefore(giorno, fine)
      invariant ValidDate(giorno)
      invariant giorno.year == anno || giorno == Date(anno + 1, 1, 1)
      invariant StrictlyAscending(r)
      invariant forall i :: 0 <= i < |r| ==>
        ValidDate(r[i]) && r[i].year == anno && Before(r[i], giorno) && Active(r[i], giorniAttivi, mesiAttivi)
      invariant forall d :: ValidDate(d) && d.year == anno && Before(d, giorno) && Active(d, giorniAttivi, mesiAttivi) ==> d in r
      decreases anno + 1 - giorno.year, 12 - giorno.month, 31 - giorno.day
    {
      if Weekday(giorno) in giorniAttivi && giorno.month in mesiAttivi {
        r := r + [giorno];
      }
      NextDayCovers(giorno);
      NextDayValid(giorno);
      giorno := NextDay(giorno);
    }
  }

  /** `date_attive_anno` of the legacy engine: the same walk over the year
      with the weekday filter only. */
  method LegacyDateAttiveAnno(anno: int, weekdays: set<int>) returns (r: seq<Date>)
    requires 1 <= anno <= 9998
    ensures StrictlyAscending(r)
    ensures forall i :: 0 <= i < |r| ==> ValidDate(r[i]) && r[i].year == anno && Weekday(r[i]) in ActiveWeekdays(weekdays)
    ensures forall d :: ValidDate(d) && d.year == anno && Weekday(d) in ActiveWeekdays(weekdays) ==> d in r
  {
    r := DateAttiveAnno(anno, weekdays, None);
  }
}
