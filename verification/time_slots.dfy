/**
 The slot generator of the booking form: for a weekday index it lists the
 labels of every bookable half-hour start time between the day's opening
 hour and its closing hour.
 */
module TimeSlots {
  import opened OpeningHours
  import opened Slots
  import opened Labels

  /** The slots of a weekday, as the reference sequence of its opening interval. */
  function DaySlots(day: int): (r: seq<Slot>)
    ensures |r| == 2 * (OpeningInterval(day).close - OpeningInterval(day).open)
    ensures forall i :: 0 <= i < |r| ==> r[i].hour < 24 && r[i].minute < 60
  {
    SlotSequence(OpeningInterval(day).open, OpeningInterval(day).close)
  }

  /** The label of every slot, in order. */
  function LabelsOf(slots: seq<Slot>): (labels: seq<string>)
    ensures |labels| == |slots|
    ensures forall i :: 0 <= i < |slots| ==> labels[i] == Label(slots[i].hour, slots[i].minute)
  {
    seq(|slots|, i requires 0 <= i < |slots| => Label(slots[i].hour, slots[i].minute))
  }

  /**
   The generator as written: look up the day's hours, then list the labels
   of the slots between them.
   */
  method GetValidTimeSlots(day: int) returns (labels: seq<string>)
    ensures labels == LabelsOf(DaySlots(day))
    ensures |labels| == 2 * (OpeningInterval(day).close - OpeningInterval(day).open)
  {
    var iv := OpeningInterval(day);
    labels := SlotLabels(iv.open, iv.close);
  }

  /** Appending the label of the next expected slot extends the labelled prefix by one. */
  lemma LabelsOfStep(labels: seq<string>, slots: seq<Slot>, k: nat, next: string)
    requires k < |slots| && labels == LabelsOf(slots[..k])
    requires next == Label(slots[k].hour, slots[k].minute)
    ensures labels + [next] == LabelsOf(slots[..k + 1])
  {
    var extended := LabelsOf(slots[..k + 1]);
    forall i | 0 <= i < k + 1
      ensures (labels + [next])[i] == extended[i]
    {
      if i < k {
        assert (labels + [next])[i] == labels[i];
      }
    }
  }

  /**
   The slot loop: walk (h, m) from open:00 in 30-minute steps while h is
   below the closing hour, appending each slot's label.
   */
  method SlotLabels(startH: nat, endH: nat) returns (labels: seq<string>)
    requires startH <= endH <= 24
    ensures labels == LabelsOf(SlotSequence(startH, endH))
    ensures labels == LabelsOf(SlotsFrom(Slot(startH, 0), endH))
  {
    ghost var expected := SlotSequence(startH, endH);

    labels := [];
    var h, m := startH, 0;
    while h < endH
      invariant startH <= h <= endH
      invariant m == 0 || m == 30
      invariant h == endH ==> m == 0
      invariant 60 * h + m == 60 * startH + 30 * |labels|
      invariant labels == LabelsOf(expected[..|labels|])
      decreases 2 * (endH - h) - m / 30
    {
      ghost var k := |labels|;
      assert expected[k] == Slot(h, m);
      // The loop guard keeps h below the closing hour, at most 24, so the
      // formatter's special case for hour 24 is never taken here.
      assert h < 24;
      var timeLabel := Label(h, m);
      LabelsOfStep(labels, expected, k, timeLabel);
      labels := labels + [timeLabel];

      m := m + 30;
      if m == 60 {
        m := 0;
        h := h + 1;
      }
    }
    assert expected[..|labels|] == expected;
    SlotsFromMatchesSequence(startH, endH);
  }

  /** Every slot of every weekday lies inside that day's opening interval and never reaches hour 24. */
  lemma DaySlotsWithinHours(day: int, i: nat)
    requires i < |DaySlots(day)|
    ensures OpeningInterval(day).open <= DaySlots(day)[i].hour < OpeningInterval(day).close
    ensures DaySlots(day)[i].hour < 24
    ensures DaySlots(day)[i].minute == 0 || DaySlots(day)[i].minute == 30
  {
  }

  /** 28 slots on Mon, Thu, Fri, Sat and Sun; 20 on Tuesday and on Wednesday. */
  lemma DaySlotCount(day: int)
    requires 0 <= day < 7
    ensures day in {0, 3, 4, 5, 6} ==> |DaySlots(day)| == 28
    ensures day == 1 || day == 2 ==> |DaySlots(day)| == 20
  {
  }

  /** No label repeats within a day. */
  lemma DayLabelsDistinct(day: int, i: nat, j: nat)
    requires i < j < |DaySlots(day)|
    ensures LabelsOf(DaySlots(day))[i] != LabelsOf(DaySlots(day))[j]
  {
    var slots := DaySlots(day);
    SlotSequenceAscending(OpeningInterval(day).open, OpeningInterval(day).close, i, j);
    if LabelsOf(slots)[i] == LabelsOf(slots)[j] {
      LabelInjective(slots[i].hour, slots[i].minute, slots[j].hour, slots[j].minute);
    }
  }

  /** Each label of a day reads back as the slot it was made from. */
  lemma DayLabelsRoundTrip(day: int, i: nat)
    requires i < |DaySlots(day)|
    ensures ParseLabel(LabelsOf(DaySlots(day))[i]) == Some((DaySlots(day)[i].hour, DaySlots(day)[i].minute))
  {
    LabelRoundTrip(DaySlots(day)[i].hour, DaySlots(day)[i].minute);
  }

  /** The first label is the opening hour, the last half past the hour before closing. */
  lemma DayFirstAndLastLabels(day: int)
    ensures LabelsOf(DaySlots(day))[0] == Label(OpeningInterval(day).open, 0)
    ensures LabelsOf(DaySlots(day))[|DaySlots(day)| - 1] == Label(OpeningInterval(day).close - 1, 30)
  {
    SlotSequenceEnds(OpeningInterval(day).open, OpeningInterval(day).close);
  }

  /** Monday (like Thursday to Sunday) runs from "10:00 AM" to a last slot at "11:30 PM". */
  lemma MondayFirstAndLastLabels()
    ensures |DaySlots(0)| == 28
    ensures LabelsOf(DaySlots(0))[0] == "10:00 AM" && LabelsOf(DaySlots(0))[27] == "11:30 PM"
  {
    assert OpeningInterval(0) == Interval(10, 24);
    DayFirstAndLastLabels(0);
    OpeningLabels();
    LastSlotLabels();
  }

  /** Tuesday runs from "12:00 PM" to a last slot at "09:30 PM". */
  lemma TuesdayFirstAndLastLabels()
    ensures |DaySlots(1)| == 20
    ensures LabelsOf(DaySlots(1))[0] == "12:00 PM" && LabelsOf(DaySlots(1))[19] == "09:30 PM"
  {
    assert OpeningInterval(1) == Interval(12, 22);
    DayFirstAndLastLabels(1);
    OpeningLabels();
    LastSlotLabels();
  }

  /** Wednesday runs from "02:00 PM" to a last slot at "11:30 PM". */
  lemma WednesdayFirstAndLastLabels()
    ensures |DaySlots(2)| == 20
    ensures LabelsOf(DaySlots(2))[0] == "02:00 PM" && LabelsOf(DaySlots(2))[19] == "11:30 PM"
  {
    assert OpeningInterval(2) == Interval(14, 24);
    DayFirstAndLastLabels(2);
    OpeningLabels();
    LastSlotLabels();
  }

  /**
   The opening and closing hours of each weekday, written on the 12-hour
   clock, are the ones the generator's own documentation announces.
   */
  lemma TableMatchesAnnouncedHours(day: int)
    requires 0 <= day < 7
    ensures day in {0, 3, 4, 5, 6} ==>
              Label(OpeningInterval(day).open, 0) == "10:00 AM" && Label(OpeningInterval(day).close, 0) == "12:00 AM"
    ensures day == 1 ==>
              Label(OpeningInterval(day).open, 0) == "12:00 PM" && Label(OpeningInterval(day).close, 0) == "10:00 PM"
    ensures day == 2 ==>
              Label(OpeningInterval(day).open, 0) == "02:00 PM" && Label(OpeningInterval(day).close, 0) == "12:00 AM"
  {
    WeekdayTable(day);
    MidnightLabel();
    OpeningLabels();
    TenPmLabel();
  }
}
