/**
 The clinic's fixed weekly opening hours: a weekday index (Monday = 0 ...
 Sunday = 6) selects an opening interval given in whole hours of the 24-hour
 clock, where 24 stands for midnight at the end of the day.
 */
module OpeningHours {

  /** An opening interval [open, close) in whole hours. */
  datatype Interval = Interval(open: nat, close: nat)

  /** The interval used for an index the weekday table does not cover. */
  const Fallback := Interval(9, 17)

  /** The weekday table of the slot generator, including its catch-all branch. */
  function OpeningInterval(day: int): (iv: Interval)
    ensures iv.open < iv.close <= 24
    ensures iv == Fallback <==> !(0 <= day < 7)
  {
    if day in [0, 3, 4, 5, 6] then Interval(10, 24)
    else if day == 1 then Interval(12, 22)
    else if day == 2 then Interval(14, 24)
    else Fallback
  }

  /** Every real weekday gets one of the three published intervals. */
  lemma WeekdayTable(day: int)
    requires 0 <= day < 7
    ensures day in {0, 3, 4, 5, 6} ==> OpeningInterval(day) == Interval(10, 24)
    ensures day == 1 ==> OpeningInterval(day) == Interval(12, 22)
    ensures day == 2 ==> OpeningInterval(day) == Interval(14, 24)
    ensures OpeningInterval(day) != Fallback
  {
  }
}
