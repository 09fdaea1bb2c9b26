/**
 Half-hour appointment slots: a slot is a start time (hour, minute); the
 generator walks from the opening hour in 30-minute steps and stops before
 the closing hour.
 */
module Slots {

  /** A start time on the 24-hour clock. */
  datatype Slot = Slot(hour: nat, minute: nat) {

    /** Minutes since the start of the day. */
    function Minutes(): nat {
      60 * hour + minute
    }

    /** The minute is one the generator can produce. */
    predicate HalfHourAligned() {
      minute == 0 || minute == 30
    }
  }

  /** Advance by 30 minutes, carrying into the hour when the minute reaches 60. */
  function Step(s: Slot): (t: Slot)
    ensures t.Minutes() == s.Minutes() + 30
    ensures s.HalfHourAligned() ==> t.HalfHourAligned()
  {
    var m := s.minute + 30;
    if m == 60 then Slot(s.hour + 1, 0) else Slot(s.hour, m)
  }

  /** The number of steps the generator still takes from `s` before `closeHour`. */
  function StepsLeft(s: Slot, closeHour: nat): (k: int)
    ensures s.hour < closeHour && s.HalfHourAligned() ==> k > 0
  {
    2 * (closeHour - s.hour) - s.minute / 30
  }

  /**
   The generator's loop written as a recursive function: emit the current
   slot while its hour is below the closing hour, then step.
   */
  function SlotsFrom(s: Slot, closeHour: nat): (r: seq<Slot>)
    requires s.HalfHourAligned()
    ensures forall i :: 0 <= i < |r| ==> r[i].hour < closeHour && r[i].HalfHourAligned()
    ensures forall i :: 0 <= i < |r| ==> r[i].Minutes() == s.Minutes() + 30 * i
    decreases StepsLeft(s, closeHour)
  {
    if s.hour < closeHour then [s] + SlotsFrom(Step(s), closeHour) else []
  }

  /**
   Reference definition of the slots of [openHour, closeHour): slot `i` starts
   `30 * i` minutes after the opening hour.
   */
  function SlotSequence(openHour: nat, closeHour: nat): (r: seq<Slot>)
    ensures |r| == if openHour <= closeHour then 2 * (closeHour - openHour) else 0
    ensures forall i :: 0 <= i < |r| ==> r[i].Minutes() == 60 * openHour + 30 * i
    ensures forall i :: 0 <= i < |r| ==> r[i].HalfHourAligned() && openHour <= r[i].hour < closeHour
  {
    if openHour <= closeHour then
      seq(2 * (closeHour - openHour), i requires 0 <= i => Slot(openHour + i / 2, 30 * (i % 2)))
    else
      []
  }

  /** Peeling the first hour off a slot sequence leaves the sequence of the next hour. */
  lemma SlotSequenceUnfold(openHour: nat, closeHour: nat)
    requires openHour < closeHour
    ensures SlotSequence(openHour, closeHour)
            == [Slot(openHour, 0), Slot(openHour, 30)] + SlotSequence(openHour + 1, closeHour)
  {
    var r := SlotSequence(openHour, closeHour);
    var t := [Slot(openHour, 0), Slot(openHour, 30)] + SlotSequence(openHour + 1, closeHour);
    assert |r| == |t|;
    forall i | 0 <= i < |r|
      ensures r[i] == t[i]
    {
      if i >= 2 {
        assert t[i] == SlotSequence(openHour + 1, closeHour)[i - 2];
      }
    }
  }

  /** The recursive loop from `open:00` produces exactly the reference sequence. */
  lemma {:induction false} SlotsFromMatchesSequence(openHour: nat, closeHour: nat)
    ensures SlotsFrom(Slot(openHour, 0), closeHour) == SlotSequence(openHour, closeHour)
    decreases closeHour - openHour
  {
    if openHour < closeHour {
      calc {
        SlotsFrom(Slot(openHour, 0), closeHour);
        [Slot(openHour, 0)] + SlotsFrom(Slot(openHour, 30), closeHour);
        [Slot(openHour, 0)] + ([Slot(openHour, 30)] + SlotsFrom(Slot(openHour + 1, 0), closeHour));
        { SlotsFromMatchesSequence(openHour + 1, closeHour); }
        [Slot(openHour, 0)] + ([Slot(openHour, 30)] + SlotSequence(openHour + 1, closeHour));
        { SlotSequenceUnfold(openHour, closeHour); }
        SlotSequence(openHour, closeHour);
      }
    }
  }

  /** Slots are strictly ascending in time, so no slot repeats. */
  lemma SlotSequenceAscending(openHour: nat, closeHour: nat, i: nat, j: nat)
    requires i < j < |SlotSequence(openHour, closeHour)|
    ensures SlotSequence(openHour, closeHour)[i].Minutes() < SlotSequence(openHour, closeHour)[j].Minutes()
    ensures SlotSequence(openHour, closeHour)[i] != SlotSequence(openHour, closeHour)[j]
  {
  }

  /** Consecutive slots are exactly 30 minutes apart. */
  lemma SlotSequenceSpacing(openHour: nat, closeHour: nat, i: nat)
    requires i + 1 < |SlotSequence(openHour, closeHour)|
    ensures SlotSequence(openHour, closeHour)[i + 1] == Step(SlotSequence(openHour, closeHour)[i])
  {
  }

  /** The first slot is the opening hour on the hour; the last is half past the hour before closing. */
  lemma SlotSequenceEnds(openHour: nat, closeHour: nat)
    requires openHour < closeHour
    ensures SlotSequence(openHour, closeHour)[0] == Slot(openHour, 0)
    ensures SlotSequence(openHour, closeHour)[|SlotSequence(openHour, closeHour)| - 1] == Slot(closeHour - 1, 30)
  {
  }

  /** A time belongs to the sequence exactly when it is half-hour aligned and inside [open, close). */
  lemma SlotSequenceMembership(openHour: nat, closeHour: nat, s: Slot)
    ensures s in SlotSequence(openHour, closeHour)
            <==> s.HalfHourAligned() && openHour <= s.hour < closeHour
  {
    var r := SlotSequence(openHour, closeHour);
    if s.HalfHourAligned() && openHour <= s.hour < closeHour {
      var i := 2 * (s.hour - openHour) + s.minute / 30;
      assert r[i] == s;
    }
  }
}
