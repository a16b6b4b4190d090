/**
 * What the question tree promises about the `Options` it fills in: which
 * fields are asked depends only on earlier answers, preset fields are kept,
 * accepted values lie in their ranges, and the answers depend only on the
 * lines actually read.
 */
module CollectorProperties {
  import opened Wrappers
  import opened Calendar
  import opened Readers
  import opened InputService

  predicate SameGeneral(a: Answers, b: Answers) {
    a.humanReadableName == b.humanReadableName && a.baseUrl == b.baseUrl && a.oneOff == b.oneOff
  }

  predicate SameDayAndYear(a: Answers, b: Answers) {
    a.date == b.date && a.year == b.year
  }

  predicate SameCalendar(a: Answers, b: Answers) {
    a.month == b.month && a.specificDate == b.specificDate && SameDayAndYear(a, b) && a.onWeekends == b.onWeekends
  }

  predicate SameSchedule(a: Answers, b: Answers) {
    a.scheduledReleases == b.scheduledReleases && a.utcOffset == b.utcOffset && SameCalendar(a, b)
  }

  predicate SamePuzzles(a: Answers, b: Answers) {
    a.totalPuzzles == b.totalPuzzles && a.partsPerPuzzle == b.partsPerPuzzle &&
    a.separateInputs == b.separateInputs && a.privateInputs == b.privateInputs
  }

  /** A field is set after its question: to its preset value when it had one. */
  predicate Kept<T(==)>(a: Option<T>, b: Option<T>) {
    b.Some? && (a.Some? ==> b == a)
  }

  // One lemma per stage of the tree.

  /** What asking the name, the base URL and the one-off flag does to a record. */
  predicate GeneralFacts(a: Answers, b: Answers) {
    SameSchedule(a, b) && SamePuzzles(a, b) &&
    Kept(a.humanReadableName, b.humanReadableName) && (a.humanReadableName.None? ==> b.humanReadableName.value != "") &&
    Kept(a.baseUrl, b.baseUrl) && (a.baseUrl.None? ==> b.baseUrl.value != "") &&
    Kept(a.oneOff, b.oneOff)
  }

  lemma GeneralStage(a: Answers, input: seq<string>)
    requires AskGeneral(a, input).Accepted?
    ensures GeneralFacts(a, AskGeneral(a, input).value)
  {
    var name := Ask(a.humanReadableName, StringAnswer, input);
    AskAnswered(a.humanReadableName, StringAnswer, input);
    var url := Ask(a.baseUrl, StringAnswer, name.rest);
    AskAnswered(a.baseUrl, StringAnswer, name.rest);
  }

  lemma DayAndYearStage(a: Answers, currentYear: int, month: int, input: seq<string>)
    requires AskDayAndYear(a, currentYear, month, input).Accepted?
    ensures var b := AskDayAndYear(a, currentYear, month, input).value;
      SameGeneral(a, b) && SamePuzzles(a, b) &&
      a.scheduledReleases == b.scheduledReleases && a.utcOffset == b.utcOffset &&
      a.month == b.month && a.specificDate == b.specificDate && a.onWeekends == b.onWeekends &&
      Kept(a.date, b.date) && (a.date.None? ==> IsCalendarDate(currentYear, month, b.date.value)) &&
      Kept(a.year, b.year) && (a.year.None? ==> b.year.value > 0)
  {
    var day := Ask(a.date, DateAnswer(currentYear, month), input);
    AskAnswered(a.date, DateAnswer(currentYear, month), input);
    AskAnswered(a.year, IntAnswer, day.rest);
  }

  lemma StartDateStage(a: Answers, currentYear: int, input: seq<string>)
    requires AskStartDate(a, currentYear, input).Accepted?
    ensures var b := AskStartDate(a, currentYear, input).value;
      SameGeneral(a, b) && SamePuzzles(a, b) &&
      a.scheduledReleases == b.scheduledReleases && a.utcOffset == b.utcOffset && a.onWeekends == b.onWeekends &&
      Kept(a.month, b.month) && (a.month.None? ==> 1 <= b.month.value <= 12) &&
      Kept(a.specificDate, b.specificDate) &&
      (b.specificDate == Some(true) ==>
        Kept(a.date, b.date) && (a.date.None? ==> IsCalendarDate(currentYear, b.month.value, b.date.value)) && Kept(a.year, b.year) && (a.year.None? ==> b.year.value > 0)) &&
      (b.specificDate != Some(true) ==> SameDayAndYear(a, b))
  {
    var month := Ask(a.month, MonthAnswer, input);
    AskAnswered(a.month, MonthAnswer, input);
    var specific := Ask(a.specificDate, BoolAnswer, month.rest);
    var a' := a.(month := Some(month.value), specificDate := Some(specific.value));
    if specific.value {
      DayAndYearStage(a', currentYear, month.value, specific.rest);
    }
  }

  lemma CalendarStage(a: Answers, currentYear: int, input: seq<string>)
    requires AskCalendar(a, currentYear, input).Accepted?
    ensures var b := AskCalendar(a, currentYear, input).value;
      SameGeneral(a, b) && SamePuzzles(a, b) &&
      a.scheduledReleases == b.scheduledReleases && a.utcOffset == b.utcOffset &&
      Kept(a.month, b.month) && (a.month.None? ==> 1 <= b.month.value <= 12) &&
      Kept(a.specificDate, b.specificDate) &&
      (b.specificDate == Some(true) ==>
        Kept(a.date, b.date) && (a.date.None? ==> IsCalendarDate(currentYear, b.month.value, b.date.value)) && Kept(a.year, b.year) && (a.year.None? ==> b.year.value > 0)) &&
      (b.specificDate != Some(true) ==> SameDayAndYear(a, b)) &&
      Kept(a.onWeekends, b.onWeekends)
  {
    StartDateStage(a, currentYear, input);
  }

  /** What the schedule questions do to a record. */
  predicate ScheduleFacts(a: Answers, b: Answers, currentYear: int) {
    SameGeneral(a, b) && SamePuzzles(a, b) &&
    (a.oneOff != Some(false) ==> b == a) &&
    (a.oneOff == Some(false) ==>
      Kept(a.scheduledReleases, b.scheduledReleases) &&
      Kept(a.utcOffset, b.utcOffset) && (a.utcOffset.None? ==> 0 <= b.utcOffset.value <= 23)) &&
    (a.oneOff == Some(false) && b.scheduledReleases == Some(false) ==> SameCalendar(a, b)) &&
    (a.oneOff == Some(false) && b.scheduledReleases == Some(true) ==>
      Kept(a.month, b.month) && (a.month.None? ==> 1 <= b.month.value <= 12) &&
      Kept(a.specificDate, b.specificDate) &&
      Kept(a.onWeekends, b.onWeekends)) &&
    (a.oneOff == Some(false) && b.scheduledReleases == Some(true) && b.specificDate == Some(true) ==>
      Kept(a.date, b.date) && (a.date.None? ==> IsCalendarDate(currentYear, b.month.value, b.date.value)) &&
      Kept(a.year, b.year) && (a.year.None? ==> b.year.value > 0)) &&
    (b.specificDate != Some(true) ==> SameDayAndYear(a, b))
  }

  lemma ScheduleStage(a: Answers, currentYear: int, input: seq<string>)
    requires AskSchedule(a, currentYear, input).Accepted?
    ensures ScheduleFacts(a, AskSchedule(a, currentYear, input).value, currentYear)
    ensures a.oneOff != Some(false) ==> AskSchedule(a, currentYear, input).rest == input
  {
    if a.oneOff == Some(false) {
      var scheduled := Ask(a.scheduledReleases, BoolAnswer, input);
      var offset := Ask(a.utcOffset, HoursAnswer, scheduled.rest);
      AskAnswered(a.utcOffset, HoursAnswer, scheduled.rest);
      var a' := a.(scheduledReleases := Some(scheduled.value), utcOffset := Some(offset.value));
      if scheduled.value {
        CalendarStage(a', currentYear, offset.rest);
      }
    }
  }

  /** What the puzzle questions do to a record. */
  predicate PuzzlesFacts(a: Answers, b: Answers) {
    SameGeneral(a, b) && SameSchedule(a, b) &&
    Kept(a.totalPuzzles, b.totalPuzzles) && (a.totalPuzzles.None? ==> b.totalPuzzles.value > 0) &&
    Kept(a.partsPerPuzzle, b.partsPerPuzzle) && (a.partsPerPuzzle.None? ==> b.partsPerPuzzle.value > 0) &&
    Kept(a.privateInputs, b.privateInputs) &&
    b.separateInputs.Some? &&
    (b.partsPerPuzzle.value <= 1 ==> b.separateInputs == Some(false)) &&
    (b.partsPerPuzzle.value > 1 && a.separateInputs.Some? ==> b.separateInputs == a.separateInputs)
  }

  lemma PuzzlesStage(a: Answers, input: seq<string>)
    requires AskPuzzles(a, input).Accepted?
    ensures PuzzlesFacts(a, AskPuzzles(a, input).value)
  {
    var total := Ask(a.totalPuzzles, IntAnswer, input);
    AskAnswered(a.totalPuzzles, IntAnswer, input);
    AskAnswered(a.partsPerPuzzle, IntAnswer, total.rest);
  }

  // The whole tree.

  /**
   * A completed tree is the three stages one after the other; `a1` and `a2`
   * are the records after the general and the schedule questions.
   */
  lemma CollectStages(init: Answers, currentYear: int, input: seq<string>) returns (a1: Answers, a2: Answers)
    requires Collect(init, currentYear, input).Accepted?
    ensures GeneralFacts(init, a1) && ScheduleFacts(a1, a2, currentYear)
    ensures PuzzlesFacts(a2, Collect(init, currentYear, input).value)
  {
    var g := AskGeneral(init, input);
    GeneralStage(init, input);
    var s := AskSchedule(g.value, currentYear, g.rest);
    ScheduleStage(g.value, currentYear, g.rest);
    assert Collect(init, currentYear, input) == AskPuzzles(s.value, s.rest);
    PuzzlesStage(s.value, s.rest);
    a1, a2 := g.value, s.value;
  }

  /**
   * A field that already has a value is never asked again and keeps it (the
   * fields up to the schedule).
   */
  predicate KeepsPresetSchedule(init: Answers, b: Answers) {
    (init.humanReadableName.Some? ==> b.humanReadableName == init.humanReadableName) &&
    (init.baseUrl.Some? ==> b.baseUrl == init.baseUrl) &&
    (init.oneOff.Some? ==> b.oneOff == init.oneOff) &&
    (init.scheduledReleases.Some? ==> b.scheduledReleases == init.scheduledReleases) &&
    (init.utcOffset.Some? ==> b.utcOffset == init.utcOffset) &&
    (init.month.Some? ==> b.month == init.month) &&
    (init.specificDate.Some? ==> b.specificDate == init.specificDate) &&
    (init.date.Some? ==> b.date == init.date) &&
    (init.year.Some? ==> b.year == init.year) &&
    (init.onWeekends.Some? ==> b.onWeekends == init.onWeekends)
  }

  lemma StagesKeepPresetSchedule(init: Answers, a1: Answers, a2: Answers, b: Answers, currentYear: int)
    requires GeneralFacts(init, a1) && ScheduleFacts(a1, a2, currentYear) && PuzzlesFacts(a2, b)
    ensures KeepsPresetSchedule(init, b)
  {
    assert KeepsPresetSchedule(init, a1);
    if a1.oneOff != Some(false) {
      assert a2 == a1;
    } else if !a2.scheduledReleases.value {
      assert SameCalendar(a1, a2);
    } else if a2.specificDate != Some(true) {
      assert SameDayAndYear(a1, a2);
    }
    assert KeepsPresetSchedule(init, a2);
    assert SameGeneral(a2, b) && SameSchedule(a2, b);
  }

  lemma CollectKeepsPresetSchedule(init: Answers, currentYear: int, input: seq<string>)
    requires Collect(init, currentYear, input).Accepted?
    ensures KeepsPresetSchedule(init, Collect(init, currentYear, input).value)
  {
    var a1, a2 := CollectStages(init, currentYear, input);
    StagesKeepPresetSchedule(init, a1, a2, Collect(init, currentYear, input).value, currentYear);
  }

  /**
   * The puzzle fields keep a preset value too, with one exception: separate
   * inputs is set to false whenever a puzzle has a single part, whatever it
   * was before.
   */
  lemma CollectKeepsPresetPuzzles(init: Answers, currentYear: int, input: seq<string>)
    requires Collect(init, currentYear, input).Accepted?
    ensures var b := Collect(init, currentYear, input).value;
      (init.totalPuzzles.Some? ==> b.totalPuzzles == init.totalPuzzles) &&
      (init.partsPerPuzzle.Some? ==> b.partsPerPuzzle == init.partsPerPuzzle) &&
      (init.privateInputs.Some? ==> b.privateInputs == init.privateInputs) &&
      (init.separateInputs.Some? && b.partsPerPuzzle.value > 1 ==> b.separateInputs == init.separateInputs) &&
      (b.partsPerPuzzle.value <= 1 ==> b.separateInputs == Some(false))
  {
    var a1, a2 := CollectStages(init, currentYear, input);
  }

  /**
   * Starting from a fresh record, the fields every project needs are set: a
   * non-empty name and base URL, the one-off flag, a positive puzzle count
   * and part count, and both input flags; separate inputs is false for a
   * single part.
   */
  lemma CollectFillsRequired(currentYear: int, input: seq<string>)
    requires Collect(UNSET, currentYear, input).Accepted?
    ensures var b := Collect(UNSET, currentYear, input).value;
      b.humanReadableName.Some? && b.humanReadableName.value != "" &&
      b.baseUrl.Some? && b.baseUrl.value != "" &&
      b.oneOff.Some? &&
      b.totalPuzzles.Some? && b.totalPuzzles.value > 0 &&
      b.partsPerPuzzle.Some? && b.partsPerPuzzle.value > 0 &&
      b.separateInputs.Some? && b.privateInputs.Some? &&
      (b.partsPerPuzzle.value == 1 ==> b.separateInputs == Some(false))
  {
    var a1, a2 := CollectStages(UNSET, currentYear, input);
  }

  /**
   * Which fields are touched depends only on earlier answers: a one-off event
   * leaves every schedule field as it was, an event without scheduled
   * releases every calendar field, and a start that is not on a specific date
   * the day and the year.
   */
  lemma CollectSkipsUnaskedFields(init: Answers, currentYear: int, input: seq<string>)
    requires Collect(init, currentYear, input).Accepted?
    ensures var b := Collect(init, currentYear, input).value;
      (b.oneOff == Some(true) ==> SameSchedule(init, b)) &&
      (b.scheduledReleases == Some(false) ==> SameCalendar(init, b)) &&
      (b.specificDate != Some(true) ==> SameDayAndYear(init, b))
  {
    var a1, a2 := CollectStages(init, currentYear, input);
  }

  /**
   * Starting from a fresh record, the release mode and the UTC offset (0 to
   * 23) are set exactly for an event that is not a one-off.
   */
  lemma CollectReleaseFields(currentYear: int, input: seq<string>)
    requires Collect(UNSET, currentYear, input).Accepted?
    ensures var b := Collect(UNSET, currentYear, input).value;
      (b.scheduledReleases.Some? <==> b.oneOff == Some(false)) &&
      (b.utcOffset.Some? <==> b.oneOff == Some(false)) &&
      (b.utcOffset.Some? ==> 0 <= b.utcOffset.value <= 23)
  {
    var a1, a2 := CollectStages(UNSET, currentYear, input);
  }

  /**
   * Starting from a fresh record, the start month (1 to 12), the
   * specific-date flag and weekend releases are set exactly for scheduled
   * releases.
   */
  predicate CalendarFields(b: Answers) {
    (b.month.Some? <==> b.scheduledReleases == Some(true)) &&
    (b.month.Some? ==> 1 <= b.month.value <= 12) &&
    (b.specificDate.Some? <==> b.scheduledReleases == Some(true)) &&
    (b.onWeekends.Some? <==> b.scheduledReleases == Some(true))
  }

  lemma StagesCalendarFields(a1: Answers, a2: Answers, b: Answers, currentYear: int)
    requires GeneralFacts(UNSET, a1) && ScheduleFacts(a1, a2, currentYear) && PuzzlesFacts(a2, b)
    ensures CalendarFields(b)
  {
    assert SameSchedule(UNSET, a1);
    if !a1.oneOff.value {
      if !a2.scheduledReleases.value {
        assert SameCalendar(a1, a2);
      } else if a2.specificDate != Some(true) {
        assert SameDayAndYear(a1, a2);
      }
    }
    assert SameSchedule(a2, b);
  }

  lemma CollectCalendarFields(currentYear: int, input: seq<string>)
    requires Collect(UNSET, currentYear, input).Accepted?
    ensures CalendarFields(Collect(UNSET, currentYear, input).value)
  {
    var a1, a2 := CollectStages(UNSET, currentYear, input);
    StagesCalendarFields(a1, a2, Collect(UNSET, currentYear, input).value, currentYear);
  }

  /**
   * Starting from a fresh record, the day and the year are set only when
   * releases are scheduled and start on a specific date; the month is then
   * set too and the day is a day of that month in the current year (not in
   * the year of the first event, which is asked after it).
   */
  predicate StartDay(b: Answers, currentYear: int) {
    (b.date.Some? <==> b.scheduledReleases == Some(true) && b.specificDate == Some(true)) &&
    (b.year.Some? <==> b.date.Some?) &&
    (b.date.Some? ==> b.month.Some? && IsCalendarDate(currentYear, b.month.value, b.date.value) && b.year.value > 0)
  }

  lemma StagesStartDay(a1: Answers, a2: Answers, b: Answers, currentYear: int)
    requires GeneralFacts(UNSET, a1) && ScheduleFacts(a1, a2, currentYear) && PuzzlesFacts(a2, b)
    ensures StartDay(b, currentYear)
  {
    assert SameSchedule(UNSET, a1);
    if !a1.oneOff.value {
      if !a2.scheduledReleases.value {
        assert SameCalendar(a1, a2);
      } else if a2.specificDate != Some(true) {
        assert SameDayAndYear(a1, a2);
      }
    }
    assert SameSchedule(a2, b);
  }

  lemma CollectStartDay(currentYear: int, input: seq<string>)
    requires Collect(UNSET, currentYear, input).Accepted?
    ensures StartDay(Collect(UNSET, currentYear, input).value, currentYear)
  {
    var a1, a2 := CollectStages(UNSET, currentYear, input);
    StagesStartDay(a1, a2, Collect(UNSET, currentYear, input).value, currentYear);
  }

  // The answers depend only on the lines read.

  /** Lines after those a stage reads stay unread by it. */
  ghost predicate ExtendsTo<T>(r: Read<T>, r': Read<T>, more: seq<string>) {
    r.Accepted? ==> r' == Accepted(r.value, r.rest + more)
  }

  lemma GeneralExtends(a: Answers, input: seq<string>, more: seq<string>)
    ensures ExtendsTo(AskGeneral(a, input), AskGeneral(a, input + more), more)
  {
    if AskGeneral(a, input).Accepted? {
      var name := Ask(a.humanReadableName, StringAnswer, input);
      AskExtends(a.humanReadableName, StringAnswer, input, more);
      var url := Ask(a.baseUrl, StringAnswer, name.rest);
      AskExtends(a.baseUrl, StringAnswer, name.rest, more);
      AskExtends(a.oneOff, BoolAnswer, url.rest, more);
    }
  }

  lemma DayAndYearExtends(a: Answers, currentYear: int, month: int, input: seq<string>, more: seq<string>)
    ensures ExtendsTo(AskDayAndYear(a, currentYear, month, input), AskDayAndYear(a, currentYear, month, input + more), more)
  {
    if AskDayAndYear(a, currentYear, month, input).Accepted? {
      var day := Ask(a.date, DateAnswer(currentYear, month), input);
      AskExtends(a.date, DateAnswer(currentYear, month), input, more);
      AskExtends(a.year, IntAnswer, day.rest, more);
    }
  }

  lemma StartDateExtends(a: Answers, currentYear: int, input: seq<string>, more: seq<string>)
    ensures ExtendsTo(AskStartDate(a, currentYear, input), AskStartDate(a, currentYear, input + more), more)
  {
    if AskStartDate(a, currentYear, input).Accepted? {
      var month := Ask(a.month, MonthAnswer, input);
      AskExtends(a.month, MonthAnswer, input, more);
      var specific := Ask(a.specificDate, BoolAnswer, month.rest);
      AskExtends(a.specificDate, BoolAnswer, month.rest, more);
      DayAndYearExtends(a.(month := Some(month.value), specificDate := Some(specific.value)), currentYear, month.value, specific.rest, more);
    }
  }

  lemma CalendarExtends(a: Answers, currentYear: int, input: seq<string>, more: seq<string>)
    ensures ExtendsTo(AskCalendar(a, currentYear, input), AskCalendar(a, currentYear, input + more), more)
  {
    if AskCalendar(a, currentYear, input).Accepted? {
      var start := AskStartDate(a, currentYear, input);
      StartDateExtends(a, currentYear, input, more);
      AskExtends(start.value.onWeekends, BoolAnswer, start.rest, more);
    }
  }

  lemma ScheduleExtends(a: Answers, currentYear: int, input: seq<string>, more: seq<string>)
    ensures ExtendsTo(AskSchedule(a, currentYear, input), AskSchedule(a, currentYear, input + more), more)
  {
    if a.oneOff == Some(false) && AskSchedule(a, currentYear, input).Accepted? {
      var scheduled := Ask(a.scheduledReleases, BoolAnswer, input);
      AskExtends(a.scheduledReleases, BoolAnswer, input, more);
      var offset := Ask(a.utcOffset, HoursAnswer, scheduled.rest);
      AskExtends(a.utcOffset, HoursAnswer, scheduled.rest, more);
      CalendarExtends(a.(scheduledReleases := Some(scheduled.value), utcOffset := Some(offset.value)), currentYear, offset.rest, more);
    }
  }

  lemma PuzzlesExtends(a: Answers, input: seq<string>, more: seq<string>)
    ensures ExtendsTo(AskPuzzles(a, input), AskPuzzles(a, input + more), more)
  {
    if AskPuzzles(a, input).Accepted? {
      var total := Ask(a.totalPuzzles, IntAnswer, input);
      AskExtends(a.totalPuzzles, IntAnswer, input, more);
      var parts := Ask(a.partsPerPuzzle, IntAnswer, total.rest);
      AskExtends(a.partsPerPuzzle, IntAnswer, total.rest, more);
      var separate := AskSeparateInputs(a.separateInputs, parts.value, parts.rest);
      if parts.value > 1 {
        AskExtends(a.separateInputs, BoolAnswer, parts.rest, more);
      }
      AskExtends(a.privateInputs, BoolAnswer, separate.rest, more);
    }
  }

  /**
   * A completed run of the tree reads a prefix of the console: more lines
   * after the input change neither the answers nor the lines it reads.
   */
  lemma CollectExtends(init: Answers, currentYear: int, input: seq<string>, more: seq<string>)
    requires Collect(init, currentYear, input).Accepted?
    ensures Collect(init, currentYear, input + more) ==
      Accepted(Collect(init, currentYear, input).value, Collect(init, currentYear, input).rest + more)
  {
    var g := AskGeneral(init, input);
    GeneralExtends(init, input, more);
    var s := AskSchedule(g.value, currentYear, g.rest);
    ScheduleExtends(g.value, currentYear, g.rest, more);
    PuzzlesExtends(s.value, s.rest, more);
  }

  /**
   * With every field already set, no question is asked and no line is read;
   * only the separate-inputs flag is forced to false for a single part.
   */
  lemma CollectWithAllPreset(init: Answers, currentYear: int, input: seq<string>)
    requires init.humanReadableName.Some? && init.baseUrl.Some? && init.oneOff.Some?
    requires init.scheduledReleases.Some? && init.utcOffset.Some? && init.month.Some? && init.specificDate.Some?
    requires init.date.Some? && init.year.Some? && init.onWeekends.Some?
    requires init.totalPuzzles.Some? && init.partsPerPuzzle.Some? && init.separateInputs.Some? && init.privateInputs.Some?
    ensures Collect(init, currentYear, input) ==
      Accepted(if init.partsPerPuzzle.value > 1 then init else init.(separateInputs := Some(false)), input)
  {
  }
}
