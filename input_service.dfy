/**
 * The option collector: the `Options` record the tool fills in, and the fixed
 * tree of questions that fills it.
 */
module InputService {
  import opened Wrappers
  import opened IntParsing
  import opened Calendar
  import opened Strings
  import opened Readers

  /** The values an `Options` object holds; `None` is a field still unset. */
  datatype Answers = Answers(
    humanReadableName: Option<string>,
    baseUrl: Option<string>,
    oneOff: Option<bool>,
    scheduledReleases: Option<bool>,
    totalPuzzles: Option<int>,
    partsPerPuzzle: Option<int>,
    separateInputs: Option<bool>,
    privateInputs: Option<bool>,
    utcOffset: Option<int>,
    month: Option<int>,
    specificDate: Option<bool>,
    onWeekends: Option<bool>,
    date: Option<int>,
    year: Option<int>)

  const UNSET: Answers :=
    Answers(None, None, None, None, None, None, None, None, None, None, None, None, None, None)

  /** The configuration record, filled in field by field while the questions are asked. */
  class Options {
    var humanReadableName: Option<string>
    var baseUrl: Option<string>
    var oneOff: Option<bool>
    var scheduledReleases: Option<bool>
    var totalPuzzles: Option<int>
    var partsPerPuzzle: Option<int>
    var separateInputs: Option<bool>
    var privateInputs: Option<bool>
    var utcOffset: Option<int>
    var month: Option<int>
    var specificDate: Option<bool>
    var onWeekends: Option<bool>
    var date: Option<int>
    var year: Option<int>

    constructor ()
      ensures Snapshot() == UNSET
    {
      humanReadableName, baseUrl, oneOff, scheduledReleases := None, None, None, None;
      totalPuzzles, partsPerPuzzle, separateInputs, privateInputs := None, None, None, None;
      utcOffset, month, specificDate, onWeekends, date, year := None, None, None, None, None, None;
    }

    function Snapshot(): Answers
      reads this
    {
      Answers(humanReadableName, baseUrl, oneOff, scheduledReleases, totalPuzzles, partsPerPuzzle,
        separateInputs, privateInputs, utcOffset, month, specificDate, onWeekends, date, year)
    }

    /**
     * The name used for files, directories and namespaces: the project name
     * with every space removed. Every other character is kept, as often as it
     * occurs in the project name.
     */
    function FormattedName(): (r: Option<string>)
      reads this
      ensures r.Some? <==> humanReadableName.Some?
      ensures r.Some? ==> ' ' !in r.value
      ensures r.Some? ==> forall c :: c != ' ' ==> multiset(r.value)[c] == multiset(humanReadableName.value)[c]
      ensures r.Some? ==> r.value == Without(humanReadableName.value, ' ')
    {
      match humanReadableName
      case None => None
      case Some(name) =>
        RemoveCharCounts(name, ' ');
        RemoveCharIsWithout(name, ' ');
        Some(Replace(name, " ", ""))
    }
  }

  // The question tree as a function of the starting values and the input lines.
  // A stage yields `Exhausted` when the input runs out before it is answered.

  /** Project name, base URL and whether the event is a one-off. */
  function AskGeneral(a: Answers, input: seq<string>): (r: Read<Answers>)
  {
    match Ask(a.humanReadableName, StringAnswer, input)
    case Exhausted => Exhausted
    case Accepted(name, in1) =>
      match Ask(a.baseUrl, StringAnswer, in1)
      case Exhausted => Exhausted
      case Accepted(url, in2) =>
        match Ask(a.oneOff, BoolAnswer, in2)
        case Exhausted => Exhausted
        case Accepted(oneOff, in3) =>
          Accepted(a.(humanReadableName := Some(name), baseUrl := Some(url), oneOff := Some(oneOff)), in3)
  }

  /** The day of the start date, a day of `month` in the current year, and the year of the first event. */
  function AskDayAndYear(a: Answers, currentYear: int, month: int, input: seq<string>): (r: Read<Answers>)
  {
    match Ask(a.date, DateAnswer(currentYear, month), input)
    case Exhausted => Exhausted
    case Accepted(day, in1) =>
      match Ask(a.year, IntAnswer, in1)
      case Exhausted => Exhausted
      case Accepted(year, in2) => Accepted(a.(date := Some(day), year := Some(year)), in2)
  }

  /** The start month, whether the start date is fixed, and (if it is) its day and first year. */
  function AskStartDate(a: Answers, currentYear: int, input: seq<string>): (r: Read<Answers>)
  {
    match Ask(a.month, MonthAnswer, input)
    case Exhausted => Exhausted
    case Accepted(month, in1) =>
      match Ask(a.specificDate, BoolAnswer, in1)
      case Exhausted => Exhausted
      case Accepted(specific, in2) =>
        var a := a.(month := Some(month), specificDate := Some(specific));
        if specific then AskDayAndYear(a, currentYear, month, in2) else Accepted(a, in2)
  }

  /** The calendar questions: those of `AskStartDate`, then whether puzzles come out on weekends. */
  function AskCalendar(a: Answers, currentYear: int, input: seq<string>): (r: Read<Answers>)
  {
    match AskStartDate(a, currentYear, input)
    case Exhausted => Exhausted
    case Accepted(a, in1) =>
      match Ask(a.onWeekends, BoolAnswer, in1)
      case Exhausted => Exhausted
      case Accepted(weekends, in2) => Accepted(a.(onWeekends := Some(weekends)), in2)
  }

  /** The release schedule, asked only for an event that is not a one-off. */
  function AskSchedule(a: Answers, currentYear: int, input: seq<string>): (r: Read<Answers>)
  {
    if a.oneOff != Some(false) then Accepted(a, input)
    else
      match Ask(a.scheduledReleases, BoolAnswer, input)
      case Exhausted => Exhausted
      case Accepted(scheduled, in1) =>
        match Ask(a.utcOffset, HoursAnswer, in1)
        case Exhausted => Exhausted
        case Accepted(offset, in2) =>
          var a := a.(scheduledReleases := Some(scheduled), utcOffset := Some(offset));
          if scheduled then AskCalendar(a, currentYear, in2) else Accepted(a, in2)
  }

  /** Separate inputs per part: asked when a puzzle has more than one part, otherwise set to false. */
  function AskSeparateInputs(value: Option<bool>, parts: int, input: seq<string>): (r: Read<bool>)
  {
    if parts > 1 then Ask(value, BoolAnswer, input) else Accepted(false, input)
  }

  /** Separate inputs and private inputs, once the number of parts is known. */
  function AskInputs(a: Answers, input: seq<string>): (r: Read<Answers>)
    requires a.partsPerPuzzle.Some?
  {
    match AskSeparateInputs(a.separateInputs, a.partsPerPuzzle.value, input)
    case Exhausted => Exhausted
    case Accepted(separate, in1) =>
      match Ask(a.privateInputs, BoolAnswer, in1)
      case Exhausted => Exhausted
      case Accepted(priv, in2) => Accepted(a.(separateInputs := Some(separate), privateInputs := Some(priv)), in2)
  }

  /** Puzzle count, parts per puzzle, then the questions about inputs. */
  function AskPuzzles(a: Answers, input: seq<string>): (r: Read<Answers>)
  {
    match Ask(a.totalPuzzles, IntAnswer, input)
    case Exhausted => Exhausted
    case Accepted(total, in1) =>
      match Ask(a.partsPerPuzzle, IntAnswer, in1)
      case Exhausted => Exhausted
      case Accepted(parts, in2) => AskInputs(a.(totalPuzzles := Some(total), partsPerPuzzle := Some(parts)), in2)
  }

  /**
   * The whole question tree, starting from the values in `init`: a field that
   * already has a value is not asked for. `currentYear` is the year the day of
   * the start date is checked against.
   */
  function Collect(init: Answers, currentYear: int, input: seq<string>): (r: Read<Answers>)
  {
    match AskGeneral(init, input)
    case Exhausted => Exhausted
    case Accepted(a1, in1) => AfterGeneral(a1, currentYear, in1)
  }

  /** The stages after the first one. */
  function AfterGeneral(a: Answers, currentYear: int, input: seq<string>): (r: Read<Answers>)
  {
    match AskSchedule(a, currentYear, input)
    case Exhausted => Exhausted
    case Accepted(a2, in2) => AskPuzzles(a2, in2)
  }

  /** Lines 46-50 of the source: asks for the name, the base URL and whether the event is a one-off. */
  method FillGeneral(options: Options, input: seq<string>) returns (finished: bool, rest: seq<string>)
    modifies options
    ensures finished <==> AskGeneral(old(options.Snapshot()), input).Accepted?
    ensures finished ==> AskGeneral(old(options.Snapshot()), input) == Accepted(options.Snapshot(), rest)
  {
    finished, rest := false, [];
    var name := GetStringInput(options.humanReadableName, input);
    if name.Exhausted? { return; }
    options.humanReadableName := Some(name.value);

    var url := GetStringInput(options.baseUrl, name.rest);
    if url.Exhausted? { return; }
    options.baseUrl := Some(url.value);

    var oneOff := GetBoolOption(options.oneOff, url.rest);
    if oneOff.Exhausted? { return; }
    options.oneOff := Some(oneOff.value);
    finished, rest := true, oneOff.rest;
  }

  /** Lines 63-64 of the source: the day of the start date and the year of the first event. */
  method FillDayAndYear(options: Options, currentYear: int, input: seq<string>) returns (finished: bool, rest: seq<string>)
    requires options.month.Some?
    modifies options
    ensures finished <==> AskDayAndYear(old(options.Snapshot()), currentYear, old(options.month.value), input).Accepted?
    ensures finished ==> AskDayAndYear(old(options.Snapshot()), currentYear, old(options.month.value), input) == Accepted(options.Snapshot(), rest)
  {
    finished, rest := false, [];
    var day := GetDateOption(currentYear, options.month.value, options.date, input);
    if day.Exhausted? { return; }
    options.date := Some(day.value);

    var year := GetIntOption(options.year, day.rest);
    if year.Exhausted? { return; }
    options.year := Some(year.value);
    finished, rest := true, year.rest;
  }

  /** Lines 58-65 of the source: the start month, whether the start date is fixed, and its day and year. */
  method FillStartDate(options: Options, currentYear: int, input: seq<string>) returns (finished: bool, rest: seq<string>)
    modifies options
    ensures finished <==> AskStartDate(old(options.Snapshot()), currentYear, input).Accepted?
    ensures finished ==> AskStartDate(old(options.Snapshot()), currentYear, input) == Accepted(options.Snapshot(), rest)
  {
    ghost var start := options.Snapshot();
    finished, rest := false, [];
    var month := GetMonthOption(options.month, input);
    if month.Exhausted? { return; }
    options.month := Some(month.value);

    var specific := GetBoolOption(options.specificDate, month.rest);
    if specific.Exhausted? { return; }
    options.specificDate := Some(specific.value);
    finished, rest := true, specific.rest;
    assert options.Snapshot() == start.(month := Some(month.value), specificDate := Some(specific.value));

    if options.specificDate == Some(true) {
      finished, rest := FillDayAndYear(options, currentYear, rest);
    }
  }

  /** Lines 58-69 of the source: the calendar questions of an event with scheduled releases. */
  method FillCalendar(options: Options, currentYear: int, input: seq<string>) returns (finished: bool, rest: seq<string>)
    modifies options
    ensures finished <==> AskCalendar(old(options.Snapshot()), currentYear, input).Accepted?
    ensures finished ==> AskCalendar(old(options.Snapshot()), currentYear, input) == Accepted(options.Snapshot(), rest)
  {
    finished, rest := FillStartDate(options, currentYear, input);
    if !finished { return; }

    finished := false;
    var weekends := GetBoolOption(options.onWeekends, rest);
    if weekends.Exhausted? { return; }
    options.onWeekends := Some(weekends.value);
    finished, rest := true, weekends.rest;
  }

  /** Lines 52-71 of the source: the schedule questions, asked only when the event is not a one-off. */
  method FillSchedule(options: Options, currentYear: int, input: seq<string>) returns (finished: bool, rest: seq<string>)
    modifies options
    ensures finished <==> AskSchedule(old(options.Snapshot()), currentYear, input).Accepted?
    ensures finished ==> AskSchedule(old(options.Snapshot()), currentYear, input) == Accepted(options.Snapshot(), rest)
  {
    finished, rest := true, input;
    if options.oneOff == Some(false) {
      finished, rest := false, [];
      var scheduled := GetBoolOption(options.scheduledReleases, input);
      if scheduled.Exhausted? { return; }
      options.scheduledReleases := Some(scheduled.value);

      var offset := GetHoursOption(options.utcOffset, scheduled.rest);
      if offset.Exhausted? { return; }
      options.utcOffset := Some(offset.value);
      finished, rest := true, offset.rest;

      if options.scheduledReleases == Some(true) {
        finished, rest := FillCalendar(options, currentYear, rest);
      }
    }
  }

  /** Lines 77-84 of the source: separate inputs (forced to false for a single part) and private inputs. */
  method FillInputs(options: Options, input: seq<string>) returns (finished: bool, rest: seq<string>)
    requires options.partsPerPuzzle.Some?
    modifies options
    ensures finished <==> AskInputs(old(options.Snapshot()), input).Accepted?
    ensures finished ==> AskInputs(old(options.Snapshot()), input) == Accepted(options.Snapshot(), rest)
  {
    finished, rest := false, input;
    if options.partsPerPuzzle.value > 1 {
      var separate := GetBoolOption(options.separateInputs, input);
      if separate.Exhausted? { return; }
      options.separateInputs := Some(separate.value);
      rest := separate.rest;
    } else {
      options.separateInputs := Some(false);
    }

    var priv := GetBoolOption(options.privateInputs, rest);
    if priv.Exhausted? { return; }
    options.privateInputs := Some(priv.value);
    finished, rest := true, priv.rest;
  }

  /** Lines 73-84 of the source: puzzle count, parts per puzzle, then the questions about inputs. */
  method FillPuzzles(options: Options, input: seq<string>) returns (finished: bool, rest: seq<string>)
    modifies options
    ensures finished <==> AskPuzzles(old(options.Snapshot()), input).Accepted?
    ensures finished ==> AskPuzzles(old(options.Snapshot()), input) == Accepted(options.Snapshot(), rest)
  {
    finished, rest := false, [];
    var total := GetIntOption(options.totalPuzzles, input);
    if total.Exhausted? { return; }
    options.totalPuzzles := Some(total.value);

    var parts := GetIntOption(options.partsPerPuzzle, total.rest);
    if parts.Exhausted? { return; }
    options.partsPerPuzzle := Some(parts.value);
    finished, rest := FillInputs(options, parts.rest);
  }

  /**
   * Asks the questions for a fresh `Options` object. `finished` is false when
   * the input runs out first (the program would then keep asking); `rest` is
   * the input left unread.
   */
  method GetOptionsFromInputs(currentYear: int, input: seq<string>) returns (options: Options, finished: bool, rest: seq<string>)
    ensures fresh(options)
    ensures finished <==> Collect(UNSET, currentYear, input).Accepted?
    ensures finished ==> Collect(UNSET, currentYear, input) == Accepted(options.Snapshot(), rest)
  {
    options := new Options();
    finished, rest := FillGeneral(options, input);
    if !finished { return; }
    ghost var general, generalRest := options.Snapshot(), rest;
    finished, rest := FillSchedule(options, currentYear, rest);
    if !finished { return; }
    ghost var scheduled, scheduledRest := options.Snapshot(), rest;
    assert AfterGeneral(general, currentYear, generalRest) == AskPuzzles(scheduled, scheduledRest);
    finished, rest := FillPuzzles(options, rest);
  }
}
