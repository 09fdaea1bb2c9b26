# Clinic time-slot generator

A Dafny model of the time-slot generator of a dental clinic's booking form
(`get_valid_time_slots` in `booking_app.py`). Given the weekday of the chosen
date, the generator picks the clinic's opening hours for that day. It then
lists every half-hour start time from opening up to, but not including,
closing. Each start time gets a 12-hour label such as `"02:00 PM"`.

The model is split the way the routine is:

- `OpeningHours` (`opening_hours.dfy`) is the weekday table. Monday, Thursday,
  Friday, Saturday and Sunday are open 10–24. Tuesday is open 12–22.
  Wednesday is open 14–24. Any other index falls back to 9–17. Hour 24 means
  midnight at the end of the day.
- `Slots` (`slots.dfy`) covers the 30-minute stepping of `(hour, minute)`.
  `SlotsFrom` is the loop written as a recursive function. `SlotSequence` is
  an independent closed-form reference in which slot `i` starts `30 * i`
  minutes after opening. A lemma proves the two equal.
- `Labels` (`labels.dfy`) is the label formatter. It computes the display
  hour and the AM/PM period, pads with zeros in the same way as `:02d`, and
  keeps the source's special case for hour 24. It also holds a parser
  `ParseLabel`, which does not exist in the source. The parser is the
  formatter's inverse, so that "each label reads back as its slot" can be
  stated and proved.
- `TimeSlots` (`time_slots.dfy`) holds `GetValidTimeSlots`, which looks up
  the day's interval in the table and hands it to `SlotLabels`.
  `SlotLabels` is an imperative method with the source's `while` loop. Its
  loop invariants prove that it returns the labels of the reference slot
  sequence, and so also the labels of `SlotsFrom`. The module also holds the
  per-day facts: slot counts, first and last labels, and that no label
  repeats.

The weekday is an integer input. The table and the method accept any
integer, as the source's `if`/`elif`/`else` does. The proved contracts show
that the 9–17 fallback is selected exactly for indices outside 0..6.

## Model

| member | source | states |
|---|---|---|
| `OpeningHours.OpeningInterval` | booking_app.py:16-24 | every index gets an interval with open < close <= 24; the 9–17 fallback is chosen if and only if the index is outside 0..6, so no real weekday reaches it |
| `OpeningHours.WeekdayTable` | booking_app.py:16-21 | Mon/Thu/Fri/Sat/Sun (0,3,4,5,6) open 10–24, Tuesday (1) 12–22, Wednesday (2) 14–24, and no weekday gets the fallback |
| `Slots.Step` | booking_app.py:46-50 | adding 30 minutes with the carry at 60 moves the time exactly 30 minutes later and keeps the minute at 0 or 30 |
| `Slots.SlotsFrom` | booking_app.py:27-50 | the loop as a recursion: every emitted slot has hour below the closing hour and minute 0 or 30, and slot `i` lies exactly `30 * i` minutes after the start |
| `Slots.SlotSequence` | booking_app.py:26-52 | the reference slot list of [open, close) has 2 * (close - open) entries, slot `i` starts 30 * i minutes after opening, and every slot is half-hour aligned with open <= hour < close |
| `Slots.SlotsFromMatchesSequence` | booking_app.py:27-50 | starting the loop at open:00 produces exactly the reference sequence |
| `Slots.SlotSequenceAscending` | booking_app.py:44-50 | slots are strictly ascending in time, so no two are equal |
| `Slots.SlotSequenceSpacing` | booking_app.py:46-50 | each slot is the previous one plus exactly 30 minutes |
| `Slots.SlotSequenceEnds` | booking_app.py:28-50 | the first slot is open:00 and the last is (close-1):30 |
| `Slots.SlotSequenceMembership` | booking_app.py:28-50 | a time is a slot if and only if its minute is 0 or 30 and open <= hour < close; the closing hour itself is never a slot |
| `Labels.DecimalString` | booking_app.py:43 | the unpadded decimal numeral of a number is a non-empty string of digits, of length one exactly for numbers below 10 |
| `Labels.ZeroPad2` | booking_app.py:43 | `:02d` formatting gives at least two characters, and exactly two for numbers below 100 |
| `Labels.DecimalRoundTrip` | booking_app.py:43 | the decimal numeral used by the formatter reads back as the number it was written from |
| `Labels.ZeroPad2Digits` | booking_app.py:43 | `:02d` gives at least two digits, and exactly the tens and units digit below 100 |
| `Labels.ZeroPad2RoundTrip` | booking_app.py:43 | zero padding keeps the numeral's value |
| `Labels.DisplayHour` | booking_app.py:35-36 | for an hour below 24 the displayed hour lies in 1..12 and agrees with the hour modulo 12 (0 shows as 12, 13..23 as 1..11) |
| `Labels.Period` | booking_app.py:34-38 | the period is two characters ending in 'M', starting with 'P' exactly when the hour is at least 12 and 'A' exactly when it is below 12 |
| `Labels.Label` | booking_app.py:34-43 | the 12-hour label "DD:MM XM", including the hour-24 special case of lines 40-41: for hours up to 24 it has eight characters with ':' at index 2, ' ' at index 5 and 'M' at index 7; its full shape is `LabelChars` and its inverse is `ParseLabel` |
| `Labels.LabelChars` | booking_app.py:34-43 | every label up to hour 24 is the eight characters "DD:MM XM": two display-hour digits, ':', two minute digits, ' ', 'P' exactly for hours 12..23, then 'M' |
| `Labels.MidnightLabel` | booking_app.py:39-43 | hour 24 is labelled "12:00 AM" by the special case, although the general period rule would say PM |
| `Labels.OpeningLabels` | booking_app.py:34-43 | hours 10, 12 and 14 are labelled "10:00 AM", "12:00 PM" and "02:00 PM" |
| `Labels.LastSlotLabels` | booking_app.py:34-43 | 21:30 and 23:30 are labelled "09:30 PM" and "11:30 PM" |
| `Labels.TenPmLabel` | booking_app.py:34-43 | hour 22 is labelled "10:00 PM" |
| `Labels.ParseLabel` | booking_app.py:34-43 | the inverse of the formatter only ever yields an hour below 24 and a minute below 60 |
| `Labels.LabelRoundTrip` | booking_app.py:34-43 | every label of an hour below 24 and a minute below 60 parses back to exactly that (hour, minute) |
| `Labels.ParseLabelSound` | booking_app.py:34-43 | every string the parser accepts is exactly the label of the slot it returns |
| `Labels.LabelInjective` | booking_app.py:34-43 | two times before midnight with the same label are the same time |
| `TimeSlots.DaySlots` | booking_app.py:16-50 | a weekday has 2 * (close - open) slots, all with hour below 24 and minute below 60 |
| `TimeSlots.LabelsOf` | booking_app.py:43-44 | the appended labels: one per slot, in order, each the label of its slot |
| `TimeSlots.GetValidTimeSlots` | booking_app.py:5-52 | the generator returns exactly the labels of the day's reference slots, in order, and 2 * (close - open) of them |
| `TimeSlots.SlotLabels` | booking_app.py:26-52 | the `while` loop from open:00 returns exactly the labels of the reference slots of [open, close), and equally the labels of the recursive loop `SlotsFrom`; it never reaches the hour-24 case of the formatter |
| `TimeSlots.DaySlotsWithinHours` | booking_app.py:28-50 | every slot of every day lies within that day's opening interval, has hour below 24 (so the `current_h == 24` branch is dead) and minute 0 or 30 |
| `TimeSlots.DaySlotCount` | booking_app.py:16-52 | Mon/Thu/Fri/Sat/Sun have 28 slots; Tuesday and Wednesday have 20 each |
| `TimeSlots.DayLabelsDistinct` | booking_app.py:34-50 | no label occurs twice within a day |
| `TimeSlots.DayLabelsRoundTrip` | booking_app.py:34-44 | each label of a day parses back to the slot that produced it |
| `TimeSlots.DayFirstAndLastLabels` | booking_app.py:28-50 | a day's first label is that of open:00 and its last that of (close-1):30 |
| `TimeSlots.MondayFirstAndLastLabels` | booking_app.py:16-50 | Monday has 28 labels, from "10:00 AM" to "11:30 PM" |
| `TimeSlots.TuesdayFirstAndLastLabels` | booking_app.py:18-50 | Tuesday has 20 labels, from "12:00 PM" to "09:30 PM" |
| `TimeSlots.WednesdayFirstAndLastLabels` | booking_app.py:20-50 | Wednesday has 20 labels, from "02:00 PM" to "11:30 PM" |
| `TimeSlots.TableMatchesAnnouncedHours` | booking_app.py:6-24 | the table's opening and closing hours, written as labels, are the ones the routine's documentation announces: 10:00 AM – 12:00 AM, 12:00 PM – 10:00 PM and 02:00 PM – 12:00 AM |

## Left out

- The Streamlit form and layout (booking_app.py:54-76) are UI rendering. They only call the generator and show its result.
- `selected_date.weekday()` (booking_app.py:12) is a date-library call. The weekday index is an input to the model instead.
- The opening-hours validator for a chosen time, the spreadsheet persistence, the returning-patient lookup and the session flags are not part of this model. Their code is not in `booking_app.py`.
- Idempotence of the generator is not stated as a lemma. Every member here is a pure function, or a method with no state, so equal inputs give equal results by construction.
- The model keeps the `current_h == 24` branch in the label formatter (`Labels.Label`) instead of dropping it. It then proves that no generated slot reaches that branch.
