/** The sleep tracker's record: built from a date, a duration in hours, a
    quality mark and notes, and refused with the first failing check. Dates
    are day numbers and "today" is a parameter. */
module Sleep {
  import opened Wrappers

  datatype SleepRecord = SleepRecord(sleepDate: int, durationHours: real, quality: int, notes: string)

  /** `InvalidDurationError`, `InvalidDateError` and `InvalidQualityError`,
      each with its message. */
  datatype SleepError =
    | InvalidDuration(message: string)
    | InvalidDate(message: string)
    | InvalidQuality(message: string)

  const NotPositiveMessage := "Продолжительность сна должна быть больше 0 часов"
  const TooLongMessage := "Продолжительность сна не может превышать 24 часа"
  const FutureDateMessage := "Дата сна не может быть в будущем"
  const QualityMessage := "Качество сна должно быть оценено от 1 до 10"

  /** The duration is more than 0 and at most 24 hours. */
  predicate DurationOk(hours: real)
  {
    0.0 < hours <= 24.0
  }

  /** The quality mark is between 1 and 10. */
  predicate QualityOk(quality: int)
  {
    1 <= quality <= 10
  }

  /** `_validate`: the duration is checked first, then the date, then the
      quality, and the first failing check decides the error. */
  function Validate(r: SleepRecord, today: int): (e: Option<SleepError>)
    ensures e.None? <==> DurationOk(r.durationHours) && r.sleepDate <= today && QualityOk(r.quality)
    ensures (e.Some? && e.value.InvalidDuration?) <==> !DurationOk(r.durationHours)
    ensures (e.Some? && e.value.InvalidDate?) <==> DurationOk(r.durationHours) && r.sleepDate > today
    ensures (e.Some? && e.value.InvalidQuality?) <==>
      DurationOk(r.durationHours) && r.sleepDate <= today && !QualityOk(r.quality)
    ensures e == Some(InvalidDuration(NotPositiveMessage)) <==> r.durationHours <= 0.0
    ensures e == Some(InvalidDuration(TooLongMessage)) <==> r.durationHours > 24.0
  {
    if r.durationHours <= 0.0 then Some(InvalidDuration(NotPositiveMessage))
    else if r.durationHours > 24.0 then Some(InvalidDuration(TooLongMessage))
    else if r.sleepDate > today then Some(InvalidDate(FutureDateMessage))
    else if !(1 <= r.quality <= 10) then Some(InvalidQuality(QualityMessage))
    else None
  }

  /** `SleepRecord(...)`: the record with its fields as given, `notes`
      defaulting to the empty string, or the error its validation raises. */
  function NewRecord(today: int, sleepDate: int, durationHours: real, quality: int, notes: string := ""): (r: Result<SleepRecord, SleepError>)
    ensures r.Success? <==> DurationOk(durationHours) && sleepDate <= today && QualityOk(quality)
    ensures r.Success? ==> r.value == SleepRecord(sleepDate, durationHours, quality, notes)
    ensures r.Failure? ==> Validate(SleepRecord(sleepDate, durationHours, quality, notes), today) == Some(r.error)
  {
    var record := SleepRecord(sleepDate, durationHours, quality, notes);
    match Validate(record, today)
    case None => Success(record)
    case Some(e) => Failure(e)
  }

  /** The boundary cases: 0.1 and 24 hours and the marks 1 and 10 are
      accepted; 0, -1 and 25 hours, tomorrow, and the marks 0 and 11 are not,
      each with its own error. */
  lemma BoundaryCases(today: int)
    ensures NewRecord(today, today, 7.5, 8, "note") == Success(SleepRecord(today, 7.5, 8, "note"))
    ensures NewRecord(today, today, 7.5, 8) == Success(SleepRecord(today, 7.5, 8, ""))
    ensures NewRecord(today, today, 0.1, 5).Success? && NewRecord(today, today, 24.0, 5).Success?
    ensures NewRecord(today, today, 7.5, 1).Success? && NewRecord(today, today, 7.5, 10).Success?
    ensures NewRecord(today, today, 0.0, 5) == Failure(InvalidDuration(NotPositiveMessage))
    ensures NewRecord(today, today, -1.0, 5) == Failure(InvalidDuration(NotPositiveMessage))
    ensures NewRecord(today, today, 25.0, 5) == Failure(InvalidDuration(TooLongMessage))
    ensures NewRecord(today, today + 1, 7.5, 5) == Failure(InvalidDate(FutureDateMessage))
    ensures NewRecord(today, today, 7.5, 0) == Failure(InvalidQuality(QualityMessage))
    ensures NewRecord(today, today, 7.5, 11) == Failure(InvalidQuality(QualityMessage))
  {
  }
}
