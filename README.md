# Code contest template: the option questionnaire

This project models, in Dafny, the interactive part of a generator for
coding-contest solution projects: the `Options` record that describes the
contest (name, base URL, release schedule, puzzle count, parts per puzzle,
input handling) and the question tree `InputService.GetOptionsFromInputs`
that fills it in from the console, one validated answer at a time.

- The console is a finite sequence of lines read from left to right. Every
  reader yields the accepted value and the lines still unread, or
  `Exhausted` when the lines run out before an acceptable one. The program
  itself would keep asking for ever at that point.
- Each reader (`GetBoolOption`, `GetIntOption`, `GetHoursOption`,
  `GetMonthOption`, `GetDateOption`, `GetStringInput`) is a method with the
  source's `while (value == null)` loop. It is proved equal to the generic
  specification `Readers.Ask(value, answer, input)`, where `answer` is the
  reader's rule for one line.
- `int.TryParse` is modelled by `IntParsing.ParseInt`: optional white space,
  an optional sign, decimal digits, optional white space, and the 32-bit
  range. `IntParsing.ParseNumeral` proves it inverts `Numeral`.
- The day check, a `DateTime.TryParse` of `year-month-day`, is
  `Calendar.IsCalendarDate`. The year is a parameter, `currentYear`, that
  stands for `DateTime.Now.Year`.
- `Options` is a class whose fields the methods assign in place.
  `Snapshot()` turns it into the value `Answers`. The tree as a whole is
  the function `InputService.Collect(init, currentYear, input)`, which
  skips every question whose field already has a value.
  `GetOptionsFromInputs` is proved to compute `Collect` from a fresh
  `Options`. The module `CollectorProperties` proves what `Collect`
  promises.
- `FormattedName` is `string.Replace(" ", "")`, modelled by
  `Strings.Replace`. It is proved equal to an independent definition,
  `Strings.Without`, which leaves the character out.

Three details of the code that the model keeps as written:

- The UTC offset reader accepts 0 (`Services/InputService.cs:136`), although
  its prompt (`Services/InputService.cs:55`) asks for a positive offset. The
  accepted range is 0 to 23.
- The day of the start date is checked against `DateTime.Now.Year`
  (`Services/InputService.cs:174`). The year of the first event is asked
  only afterwards (`Services/InputService.cs:64`) and plays no part in it.
- `Replace(" ", "")` (`Services/InputService.cs:18`) removes only U+0020.
  Tabs and other white space stay in the formatted name.

## Model

| member | source | states |
|---|---|---|
| IntParsing.TrimStart | Services/InputService.cs:98 | the white space `int.TryParse` skips before a number: the result is a suffix, starts with no white space, and only white space was dropped |
| IntParsing.TrimEnd | Services/InputService.cs:98 | the white space `int.TryParse` skips after a number: the result is a prefix, ends with no white space, and only white space was dropped |
| IntParsing.ParseInt | Services/InputService.cs:98 | `int.TryParse` succeeds only with a value in the 32-bit range |
| IntParsing.Digits | Services/InputService.cs:98 | the decimal digits of a natural number: non-empty, all digits, no leading zero except for 0 itself |
| IntParsing.DigitsValueOfDigits | Services/InputService.cs:98 | reading back the digits of `n` gives `n` |
| IntParsing.Numeral | Services/InputService.cs:98 | the decimal text of an integer, with a `-` for a negative one; `ParseNumeral` proves `int.TryParse` reads it back |
| IntParsing.ParseNumeral | Services/InputService.cs:98 | `int.TryParse` of the numeral of `n` gives `n` exactly when `n` fits in 32 bits, and fails otherwise |
| Calendar.DaysInMonth | Services/InputService.cs:174 | a month number has days exactly when it is 1 to 12, and never more than 31 |
| Calendar.IsCalendarDate | Services/InputService.cs:174 | `DateTime.TryParse` of `year-month-day` succeeds: an accepted day is 1 to 31, at most 29 in February; `MonthLengths` gives the exact days of each month |
| Calendar.MonthLengths | Services/InputService.cs:174 | days 1 to 28 exist in every month; 29 February only in leap years; day 30 in every month but February; day 31 only in the seven long months |
| Strings.Replace | Services/InputService.cs:18 | replacing by nothing never lengthens the string; replacing a single character by nothing removes every occurrence of it |
| Strings.ReplaceCharAppend | Services/InputService.cs:18 | replacing a single character distributes over concatenation |
| Strings.ReplaceCharAbsent | Services/InputService.cs:18 | a string without the character is unchanged |
| Strings.RemoveCharCounts | Services/InputService.cs:18 | removing a character deletes all its occurrences and keeps every other character as often as it occurs |
| Strings.Without | Services/InputService.cs:18 | the characters other than `c`, in order: `c` does not occur and the result is no longer than the input |
| Strings.RemoveCharIsWithout | Services/InputService.cs:18 | `Replace(s, [c], [])` equals `Without(s, c)`: exactly the other characters, in their order |
| InputService.Options.constructor | Services/InputService.cs:44 | a new `Options` has every field unset |
| InputService.Options.Snapshot | Services/InputService.cs:3-17 | the fourteen nullable properties of `Options` as one value, field by field; every `Fill*` method and `GetOptionsFromInputs` state the new object through it |
| InputService.Options.FormattedName | Services/InputService.cs:18 | set exactly when the name is set; no space; every other character kept as often as in the name and in the same order |
| Readers.Ask | Services/InputService.cs:89-104 | the meaning of every `while (value == null)` loop: a given value is returned with no line read, otherwise lines are read until one is accepted; `AskAccepted` and `AskExhausted` characterise it in both directions |
| Readers.BoolAnswer | Services/InputService.cs:98-100 | the yes/no rule for one line; `BoolAnswerOfNumeral` proves `1` is yes, `2` is no and every other number is rejected |
| Readers.IntAnswer | Services/InputService.cs:117 | the count rule for one line: an accepted value is positive and fits in 32 bits; `IntAnswerOfNumeral` proves it accepts exactly those |
| Readers.HoursAnswer | Services/InputService.cs:136 | the offset rule for one line: an accepted value is 0 to 23; `HoursAnswerOfNumeral` proves it accepts exactly those |
| Readers.MonthAnswer | Services/InputService.cs:155 | the month rule for one line: an accepted value is 1 to 12; `MonthAnswerOfNumeral` proves it accepts exactly those |
| Readers.DateAnswer | Services/InputService.cs:174 | the day rule for one line: an accepted value is a day of the month in the given year; `DateAnswerOfNumeral` proves it accepts exactly those |
| Readers.StringAnswer | Services/InputService.cs:193-194 | the text rule for one line: a line is accepted exactly when it is not empty, and then as typed |
| Readers.GetBoolOption | Services/InputService.cs:88-107 | the loop computes `Ask` with the yes/no rule; a given value is returned and no line is read; a new answer consumes at least one line |
| Readers.GetIntOption | Services/InputService.cs:109-126 | the loop computes `Ask` with the positive-integer rule; a given value is returned untouched; a new answer is positive |
| Readers.GetHoursOption | Services/InputService.cs:128-145 | the loop computes `Ask` with the hour rule; a given value is returned untouched; a new answer is 0 to 23 |
| Readers.GetMonthOption | Services/InputService.cs:147-164 | the loop computes `Ask` with the month rule; a given value is returned untouched; a new answer is 1 to 12 |
| Readers.GetDateOption | Services/InputService.cs:166-183 | the loop computes `Ask` with the day rule; a given value is returned untouched; a new answer is a day of the month in the current year |
| Readers.GetStringInput | Services/InputService.cs:185-202 | the loop computes `Ask` with the non-empty rule; a given value is returned untouched; a new answer is not empty |
| Readers.AskExhausted | Services/InputService.cs:89-104 | asking runs out of input exactly when every line is rejected |
| Readers.AskAcceptsFirst | Services/InputService.cs:89-104 | an accepted value comes from the first acceptable line, and the lines after it are left |
| Readers.AskAcceptsAt | Services/InputService.cs:89-104 | the first acceptable line is the one accepted, and the lines after it are left |
| Readers.AskAccepted | Services/InputService.cs:89-104 | a reader accepts `v` leaving `rest` exactly when some line is the first acceptable one, it reads as `v`, and `rest` follows it |
| Readers.AskAnswered | Services/InputService.cs:89-106 | a given value is returned with no line read; otherwise the value is one the rule accepts and at least one line is consumed |
| Readers.AskSkipsRejected | Services/InputService.cs:101-103 | rejected lines change nothing: the reader asks again |
| Readers.AskExtends | Services/InputService.cs:95 | a reader reads no line after the one it accepts |
| Readers.BoolAnswerOfNumeral | Services/InputService.cs:98-103 | `1` is yes, `2` is no, and every other number, 0 and 3 included, is rejected |
| Readers.IntAnswerOfNumeral | Services/InputService.cs:117 | the count reader accepts exactly the positive 32-bit numbers |
| Readers.HoursAnswerOfNumeral | Services/InputService.cs:136 | the offset reader accepts exactly 0 to 23 |
| Readers.MonthAnswerOfNumeral | Services/InputService.cs:155 | the month reader accepts exactly 1 to 12 |
| Readers.DateAnswerOfNumeral | Services/InputService.cs:174 | the day reader accepts exactly the days of the month in the given year |
| Readers.StringAnswerSkipsEmpty | Services/InputService.cs:193-198 | empty lines are skipped and the first non-empty line is returned unchanged |
| Readers.JuneDayReprompt | Services/InputService.cs:174-178 | day 31 of June is rejected and the question asked again; day 15 is then accepted |
| Readers.JuneDays | Services/InputService.cs:174 | `31` is not a day of June and `15` is |
| InputService.AskGeneral | Services/InputService.cs:46-50 | name, base URL and one-off flag, each asked only when unset; `GeneralStage` states what it sets and keeps |
| InputService.AskDayAndYear | Services/InputService.cs:63-64 | the day, checked against the month in the current year, then the first year; `DayAndYearStage` states what it sets and keeps |
| InputService.AskStartDate | Services/InputService.cs:58-65 | month, specific-date flag, and day and year only for a specific date; `StartDateStage` states what it sets and keeps |
| InputService.AskCalendar | Services/InputService.cs:58-69 | the start-date questions, then the weekend flag; `CalendarStage` states what it sets and keeps |
| InputService.AskSchedule | Services/InputService.cs:52-71 | the schedule questions, only when `OneOff == false`, and the calendar only for scheduled releases; `ScheduleStage` states what it sets and keeps |
| InputService.AskSeparateInputs | Services/InputService.cs:77-82 | separate inputs is asked for more than one part and is false otherwise; `PuzzlesStage` states the result |
| InputService.AskInputs | Services/InputService.cs:77-84 | separate inputs, then private inputs; `PuzzlesStage` states the result |
| InputService.AskPuzzles | Services/InputService.cs:73-84 | puzzle count, parts, then the input questions; `PuzzlesStage` states what it sets and keeps |
| InputService.AfterGeneral | Services/InputService.cs:52-84 | the schedule stage, then the puzzle stage; `CollectStages` splits a completed run into them |
| InputService.Collect | Services/InputService.cs:43-86 | the whole question tree from given starting values; the `CollectorProperties` lemmas state what it promises, and `GetOptionsFromInputs` computes it |
| InputService.FillGeneral | Services/InputService.cs:46-50 | assigns the name, the base URL and the one-off flag as `AskGeneral` does |
| InputService.FillDayAndYear | Services/InputService.cs:63-64 | assigns the day and the first year as `AskDayAndYear` does |
| InputService.FillStartDate | Services/InputService.cs:58-65 | assigns the month, the specific-date flag and, when set, day and year, as `AskStartDate` does |
| InputService.FillCalendar | Services/InputService.cs:58-69 | assigns the calendar fields as `AskCalendar` does |
| InputService.FillSchedule | Services/InputService.cs:52-71 | assigns the schedule fields, only for an event that is not a one-off, as `AskSchedule` does |
| InputService.FillInputs | Services/InputService.cs:77-84 | assigns separate inputs, forced to false for one part, and private inputs, as `AskInputs` does |
| InputService.FillPuzzles | Services/InputService.cs:73-84 | assigns the puzzle fields as `AskPuzzles` does |
| InputService.GetOptionsFromInputs | Services/InputService.cs:43-86 | from a fresh `Options`, the fields end up as `Collect` gives them and exactly the lines it reads are consumed; it finishes exactly when `Collect` does |
| CollectorProperties.GeneralStage | Services/InputService.cs:46-50 | the first three questions keep preset values, set the name and URL non-empty, and touch nothing else |
| CollectorProperties.DayAndYearStage | Services/InputService.cs:63-64 | the day is a day of the month in the current year and the year is positive, unless preset |
| CollectorProperties.StartDateStage | Services/InputService.cs:58-65 | the month is 1 to 12; day and year are asked only for a specific date |
| CollectorProperties.CalendarStage | Services/InputService.cs:58-69 | the calendar stage also sets the weekend flag, keeping preset values |
| CollectorProperties.ScheduleStage | Services/InputService.cs:52-71 | a one-off event reads nothing and changes nothing; otherwise the offset is 0 to 23 and calendar fields are touched only for scheduled releases |
| CollectorProperties.PuzzlesStage | Services/InputService.cs:73-84 | counts are positive; separate inputs is false for one part and keeps a preset value otherwise |
| CollectorProperties.CollectStages | Services/InputService.cs:43-86 | a completed run is the three stages in order, each with its own guarantees |
| CollectorProperties.StagesKeepPresetSchedule | Services/InputService.cs:46-71 | after the three stages, every preset field up to the schedule has its preset value |
| CollectorProperties.CollectKeepsPresetSchedule | Services/InputService.cs:46-71 | a field that already has a value is not asked again and keeps it |
| CollectorProperties.CollectKeepsPresetPuzzles | Services/InputService.cs:73-84 | preset puzzle fields are kept, except separate inputs, which becomes false for one part whatever it was |
| CollectorProperties.CollectFillsRequired | Services/InputService.cs:46-84 | from a fresh record: name, URL, one-off flag, puzzle count, parts and both input flags are set, counts positive, strings non-empty, separate inputs false for one part |
| CollectorProperties.CollectSkipsUnaskedFields | Services/InputService.cs:52-71 | a one-off event leaves every schedule field alone; without scheduled releases every calendar field; without a specific date the day and year |
| CollectorProperties.CollectReleaseFields | Services/InputService.cs:52-55 | from a fresh record, release mode and UTC offset are set exactly when the event is not a one-off, and the offset is 0 to 23 |
| CollectorProperties.StagesCalendarFields | Services/InputService.cs:57-70 | from a fresh record, the month is 1 to 12, and month, specific-date and weekend flags are set exactly for scheduled releases |
| CollectorProperties.CollectCalendarFields | Services/InputService.cs:57-70 | from a fresh record, month, specific-date and weekend flags are set exactly for scheduled releases, the month 1 to 12 |
| CollectorProperties.StagesStartDay | Services/InputService.cs:57-65 | from a fresh record, day and year are set exactly for scheduled releases on a specific date, with a valid day of that month |
| CollectorProperties.CollectStartDay | Services/InputService.cs:57-65 | from a fresh record, day and year are set exactly for scheduled releases on a specific date; the month is then set and the day is a day of it in the current year |
| CollectorProperties.GeneralExtends | Services/InputService.cs:46-50 | the first stage reads no line after its last answer |
| CollectorProperties.DayAndYearExtends | Services/InputService.cs:63-64 | the day-and-year stage reads no line after its last answer |
| CollectorProperties.StartDateExtends | Services/InputService.cs:58-65 | the start-date stage reads no line after its last answer |
| CollectorProperties.CalendarExtends | Services/InputService.cs:58-69 | the calendar stage reads no line after its last answer |
| CollectorProperties.ScheduleExtends | Services/InputService.cs:52-71 | the schedule stage reads no line after its last answer |
| CollectorProperties.PuzzlesExtends | Services/InputService.cs:73-84 | the puzzle stage reads no line after its last answer |
| CollectorProperties.CollectExtends | Services/InputService.cs:43-86 | the answers depend only on the lines read: more lines after them change neither the answers nor what is read |
| CollectorProperties.CollectWithAllPreset | Services/InputService.cs:43-86 | with every field preset, nothing is read and only separate inputs changes, to false for one part |

## Left out

- `Services/TemplateGeneratorService.cs` is not part of this model. It only creates directories, copies files and builds a zip archive, with no logic to verify.
- Console output is left out: the prompts, the menu lines, the error messages, `Console.Clear` and the wording of the puzzle-count prompt (`Services/InputService.cs:73`). None of these affects which answer is accepted.
- The commented-out debugging `Options` class with fixed values (`Services/InputService.cs:21-40`) is dead code.
- IntParsing.ParseInt: does not model the trailing NUL characters that .NET also accepts, or a culture's own sign symbols. It uses `-` and `+`, as in the invariant culture.
- Calendar.IsCalendarDate: stands for `DateTime.TryParse` only on the `year-month-day` text that the program builds. Other date formats and culture-specific parsing are left out.
- Readers.GetDateOption: `DateTime.Now.Year` is the parameter `currentYear`, because the clock is outside the model.
- InputService.GetOptionsFromInputs: the console is a finite sequence of lines. On input that runs out, the program blocks or loops for ever; the model stops and reports `finished == false`.
- InputService.GetOptionsFromInputs: the method is split into stage methods (`FillGeneral`, `FillSchedule`, `FillPuzzles` and the ones they call). Each keeps the source's order of assignments, and keeping them separate keeps each proof small.
- Generating the project files from the options is not in the modelled source, so nothing about it is modelled.
