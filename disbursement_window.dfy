/** The span of order creation times a disbursement run covers
    (disbursements/value_objects/disbursement_window.rb). */
module DisbursementWindow {
  import opened Common
  import opened Calendar

  /** `end_time`: the end of the day before the reference date, whatever the frequency. */
  function EndTime(date: int, frequency: string): int
  {
    EndOfDay(date - 1)
  }

  /** `start_time`: the beginning of the previous day for "daily", of the day seven days
      back for "weekly"; any other frequency raises ArgumentError. */
  function StartTime(date: int, frequency: string): (r: Result<int, Error>)
    ensures r.Err? <==> frequency != "daily" && frequency != "weekly"
    ensures r.Err? ==> r.error == Error(ArgumentError, "Unknown frequency: " + frequency)
  {
    match frequency
    case "daily" => Ok(BeginningOfDay(date - 1))
    case "weekly" => Ok(BeginningOfDay(date - 7))
    case _ => Err(Error(ArgumentError, "Unknown frequency: " + frequency))
  }

  predicate InWindow(date: int, frequency: string, t: int)
  {
    StartTime(date, frequency).Ok? && StartTime(date, frequency).value <= t <= EndTime(date, frequency)
  }

  /** The end is the last second of day d-1: the next second is on day d. */
  lemma EndTimeIsLastSecondOfPreviousDay(date: int, frequency: string)
    ensures DayOf(EndTime(date, frequency)) == date - 1
    ensures DayOf(EndTime(date, frequency) + 1) == date
  {
    WithinDay(EndTime(date, frequency), date - 1);
    WithinDay(EndTime(date, frequency) + 1, date);
  }

  /** The daily window is exactly the day before the reference date. */
  lemma DailyWindowIsPreviousDay(date: int, t: int)
    ensures InWindow(date, "daily", t) <==> DayOf(t) == date - 1
  {
    WithinDay(t, date - 1);
  }

  /** The weekly window is exactly the seven whole days d-7 .. d-1. */
  lemma WeeklyWindowIsPreviousSevenDays(date: int, t: int)
    ensures InWindow(date, "weekly", t) <==> date - 7 <= DayOf(t) <= date - 1
  {
    var d := DayOf(t);
    WithinDay(t, d);
    if date - 7 <= d <= date - 1 {
      DayBoundariesOrdered(date - 7, d);
      DayBoundariesOrdered(d, date - 1);
    } else if d < date - 7 {
      DayBoundariesOrdered(d + 1, date - 7);
    } else {
      DayBoundariesOrdered(date, d);
    }
  }

  /** For both frequencies the window is non-empty, the daily one lies inside the weekly
      one, and no instant of the reference day itself is covered. */
  lemma WindowShape(date: int, t: int)
    ensures StartTime(date, "daily").value <= EndTime(date, "daily")
    ensures StartTime(date, "weekly").value <= EndTime(date, "weekly")
    ensures InWindow(date, "daily", t) ==> InWindow(date, "weekly", t)
    ensures DayOf(t) == date ==> !InWindow(date, "daily", t) && !InWindow(date, "weekly", t)
  {
    DayBoundariesOrdered(date - 7, date - 1);
    DailyWindowIsPreviousDay(date, t);
    WeeklyWindowIsPreviousSevenDays(date, t);
  }

  lemma UnknownFrequencyRaises(date: int)
    ensures StartTime(date, "monthly") == Err(Error(ArgumentError, "Unknown frequency: monthly"))
    ensures StartTime(date, "DAILY").Err?
  {
    assert "Unknown frequency: " + "monthly" == "Unknown frequency: monthly";
  }
}
