/**
 * The validating "ask until valid" readers of the input service.
 *
 * The console is a finite sequence of lines read from left to right. Each
 * reader takes the value already known (if any) and the lines still to be
 * read, and yields the accepted value with the lines left after it, or
 * `Exhausted` when the lines run out before one is accepted (the program
 * itself would then keep asking for ever).
 */
module Readers {
  import opened Wrappers
  import opened IntParsing
  import opened Calendar

  datatype Read<T> = Accepted(value: T, rest: seq<string>) | Exhausted

  /** No line of `lines` is accepted by `answer`. */
  ghost predicate AllRejected<T>(answer: string -> Option<T>, lines: seq<string>) {
    forall j :: 0 <= j < |lines| ==> answer(lines[j]).None?
  }

  /**
   * The meaning of every reader: a value already given is returned without
   * reading; otherwise lines are read until `answer` accepts one.
   */
  function Ask<T>(value: Option<T>, answer: string -> Option<T>, input: seq<string>): (r: Read<T>)
    decreases |input|
  {
    if value.Some? then Accepted(value.value, input)
    else if input == [] then Exhausted
    else match answer(input[0])
      case Some(v) => Accepted(v, input[1..])
      case None => Ask(None, answer, input[1..])
  }

  // The acceptance rule of each reader, one line at a time.

  /** Yes/no menu: `1` means yes, `2` means no. */
  function BoolAnswer(line: string): (r: Option<bool>)
  {
    match ParseInt(line)
    case Some(n) => if n > 0 && n <= 2 then Some(n == 1) else None
    case None => None
  }

  /** A positive integer. */
  function IntAnswer(line: string): (r: Option<int>)
    ensures r.Some? ==> 0 < r.value <= MAX_INT32
  {
    match ParseInt(line)
    case Some(n) => if n > 0 then Some(n) else None
    case None => None
  }

  /** An hour offset from 0 to 23. */
  function HoursAnswer(line: string): (r: Option<int>)
    ensures r.Some? ==> 0 <= r.value <= 23
  {
    match ParseInt(line)
    case Some(n) => if n >= 0 && n <= 23 then Some(n) else None
    case None => None
  }

  /** A month number from 1 to 12. */
  function MonthAnswer(line: string): (r: Option<int>)
    ensures r.Some? ==> 1 <= r.value <= 12
  {
    match ParseInt(line)
    case Some(n) => if n >= 1 && n <= 12 then Some(n) else None
    case None => None
  }

  /** A day of `month` in `year` (the source passes the current year). */
  function DateAnswer(year: int, month: int): (r: string -> Option<int>)
    ensures forall line :: r(line).Some? ==> IsCalendarDate(year, month, r(line).value)
  {
    line =>
      match ParseInt(line)
      case Some(n) => if IsCalendarDate(year, month, n) then Some(n) else None
      case None => None
  }

  /** Any non-empty line, kept as typed. */
  function StringAnswer(line: string): (r: Option<string>)
    ensures r.Some? <==> line != ""
    ensures r.Some? ==> r.value == line
  {
    if line != "" then Some(line) else None
  }

  method GetBoolOption(value: Option<bool>, input: seq<string>) returns (r: Read<bool>)
    ensures r == Ask(value, BoolAnswer, input)
    ensures value.Some? ==> r == Accepted(value.value, input)
    ensures value.None? && r.Accepted? ==> |r.rest| < |input|
  {
    var v, rest := value, input;
    while v.None?
      invariant Ask(v, BoolAnswer, rest) == Ask(value, BoolAnswer, input)
      invariant value.Some? ==> v == value && rest == input
      invariant value.None? && v.Some? ==> |rest| < |input|
      invariant |rest| <= |input|
      decreases |rest|
    {
      if rest == [] {
        return Exhausted;
      }
      var line := rest[0];
      rest := rest[1..];
      var parsed := ParseInt(line);
      if parsed.Some? && parsed.value > 0 && parsed.value <= 2 {
        v := Some(parsed.value == 1);
      }
    }
    r := Accepted(v.value, rest);
  }

  method GetIntOption(value: Option<int>, input: seq<string>) returns (r: Read<int>)
    ensures r == Ask(value, IntAnswer, input)
    ensures value.Some? ==> r == Accepted(value.value, input)
    ensures value.None? && r.Accepted? ==> 0 < r.value <= MAX_INT32 && |r.rest| < |input|
  {
    var v, rest := value, input;
    while v.None?
      invariant Ask(v, IntAnswer, rest) == Ask(value, IntAnswer, input)
      invariant value.Some? ==> v == value && rest == input
      invariant value.None? && v.Some? ==> 0 < v.value <= MAX_INT32 && |rest| < |input|
      invariant |rest| <= |input|
      decreases |rest|
    {
      if rest == [] {
        return Exhausted;
      }
      var line := rest[0];
      rest := rest[1..];
      var parsed := ParseInt(line);
      if parsed.Some? && parsed.value > 0 {
        v := parsed;
      }
    }
    r := Accepted(v.value, rest);
  }

  method GetHoursOption(value: Option<int>, input: seq<string>) returns (r: Read<int>)
    ensures r == Ask(value, HoursAnswer, input)
    ensures value.Some? ==> r == Accepted(value.value, input)
    ensures value.None? && r.Accepted? ==> 0 <= r.value <= 23 && |r.rest| < |input|
  {
    var v, rest := value, input;
    while v.None?
      invariant Ask(v, HoursAnswer, rest) == Ask(value, HoursAnswer, input)
      invariant value.Some? ==> v == value && rest == input
      invariant value.None? && v.Some? ==> 0 <= v.value <= 23 && |rest| < |input|
      invariant |rest| <= |input|
      decreases |rest|
    {
      if rest == [] {
        return Exhausted;
      }
      var line := rest[0];
      rest := rest[1..];
      var parsed := ParseInt(line);
      if parsed.Some? && parsed.value >= 0 && parsed.value <= 23 {
        v := parsed;
      }
    }
    r := Accepted(v.value, rest);
  }

  method GetMonthOption(value: Option<int>, input: seq<string>) returns (r: Read<int>)
    ensures r == Ask(value, MonthAnswer, input)
    ensures value.Some? ==> r == Accepted(value.value, input)
    ensures value.None? && r.Accepted? ==> 1 <= r.value <= 12 && |r.rest| < |input|
  {
    var v, rest := value, input;
    while v.None?
      invariant Ask(v, MonthAnswer, rest) == Ask(value, MonthAnswer, input)
      invariant value.Some? ==> v == value && rest == input
      invariant value.None? && v.Some? ==> 1 <= v.value <= 12 && |rest| < |input|
      invariant |rest| <= |input|
      decreases |rest|
    {
      if rest == [] {
        return Exhausted;
      }
      var line := rest[0];
      rest := rest[1..];
      var parsed := ParseInt(line);
      if parsed.Some? && parsed.value >= 1 && parsed.value <= 12 {
        v := parsed;
      }
    }
    r := Accepted(v.value, rest);
  }

  /** `currentYear` stands for `DateTime.Now.Year`, the year the source checks the day against. */
  method GetDateOption(currentYear: int, month: int, value: Option<int>, input: seq<string>) returns (r: Read<int>)
    ensures r == Ask(value, DateAnswer(currentYear, month), input)
    ensures value.Some? ==> r == Accepted(value.value, input)
    ensures value.None? && r.Accepted? ==> IsCalendarDate(currentYear, month, r.value) && |r.rest| < |input|
  {
    var v, rest := value, input;
    while v.None?
      invariant Ask(v, DateAnswer(currentYear, month), rest) == Ask(value, DateAnswer(currentYear, month), input)
      invariant value.Some? ==> v == value && rest == input
      invariant value.None? && v.Some? ==> IsCalendarDate(currentYear, month, v.value) && |rest| < |input|
      invariant |rest| <= |input|
      decreases |rest|
    {
      if rest == [] {
        return Exhausted;
      }
      var line := rest[0];
      rest := rest[1..];
      var parsed := ParseInt(line);
      if parsed.Some? && IsCalendarDate(currentYear, month, parsed.value) {
        v := parsed;
      }
    }
    r := Accepted(v.value, rest);
  }

  method GetStringInput(value: Option<string>, input: seq<string>) returns (r: Read<string>)
    ensures r == Ask(value, StringAnswer, input)
    ensures value.Some? ==> r == Accepted(value.value, input)
    ensures value.None? && r.Accepted? ==> r.value != "" && |r.rest| < |input|
  {
    var v, rest := value, input;
    while v.None?
      invariant Ask(v, StringAnswer, rest) == Ask(value, StringAnswer, input)
      invariant value.Some? ==> v == value && rest == input
      invariant value.None? && v.Some? ==> v.value != "" && |rest| < |input|
      invariant |rest| <= |input|
      decreases |rest|
    {
      if rest == [] {
        return Exhausted;
      }
      var line := rest[0];
      rest := rest[1..];
      if line != "" {
        v := Some(line);
      }
    }
    r := Accepted(v.value, rest);
  }

  // What the readers promise, stated on their meaning `Ask`.

  /** Asking for a missing value runs out of input exactly when no line is acceptable. */
  lemma {:induction false} AskExhausted<T>(answer: string -> Option<T>, input: seq<string>)
    ensures Ask(None, answer, input).Exhausted? <==> AllRejected(answer, input)
    decreases |input|
  {
    if input != [] {
      AskExhausted(answer, input[1..]);
      if answer(input[0]).None? {
        assert AllRejected(answer, input) <==> AllRejected(answer, input[1..]) by {
          forall j | 0 < j < |input| ensures input[j] == input[1..][j - 1] { }
        }
      }
    }
  }

  /** An accepted value comes from the first acceptable line, and the lines after it are left. */
  lemma {:induction false} AskAcceptsFirst<T>(answer: string -> Option<T>, input: seq<string>, v: T, rest: seq<string>)
    requires Ask(None, answer, input) == Accepted(v, rest)
    ensures exists i :: 0 <= i < |input| && AllRejected(answer, input[..i]) && answer(input[i]) == Some(v) && rest == input[i + 1..]
    decreases |input|
  {
    if answer(input[0]).Some? {
      assert AllRejected(answer, input[..0]);
      assert 0 <= 0 < |input| && AllRejected(answer, input[..0]) && answer(input[0]) == Some(v) && rest == input[1..];
    } else {
      var tail := input[1..];
      AskAcceptsFirst(answer, tail, v, rest);
      var k :| 0 <= k < |tail| && AllRejected(answer, tail[..k]) && answer(tail[k]) == Some(v) && rest == tail[k + 1..];
      assert input[k + 1] == tail[k] && input[k + 2..] == tail[k + 1..];
      forall j | 0 <= j < k + 1
        ensures answer(input[j]).None?
      {
        if j > 0 {
          assert input[j] == tail[..k][j - 1];
        }
      }
      assert AllRejected(answer, input[..k + 1]);
    }
  }

  /** The first acceptable line is the one accepted. */
  lemma AskAcceptsAt<T>(answer: string -> Option<T>, input: seq<string>, i: nat)
    requires i < |input| && AllRejected(answer, input[..i]) && answer(input[i]).Some?
    ensures Ask(None, answer, input) == Accepted(answer(input[i]).value, input[i + 1..])
  {
    var before, after := input[..i], input[i..];
    assert input == before + after;
    AskSkipsRejected(answer, before, after);
    assert after[0] == input[i] && after[1..] == input[i + 1..];
  }

  /**
   * Asking for a missing value accepts the first acceptable line, with the value
   * `answer` gives it, and leaves exactly the lines after it unread.
   */
  lemma AskAccepted<T>(answer: string -> Option<T>, input: seq<string>, v: T, rest: seq<string>)
    ensures Ask(None, answer, input) == Accepted(v, rest) <==>
      exists i :: 0 <= i < |input| && AllRejected(answer, input[..i]) && answer(input[i]) == Some(v) && rest == input[i + 1..]
  {
    if Ask(None, answer, input) == Accepted(v, rest) {
      AskAcceptsFirst(answer, input, v, rest);
    }
    if exists i :: 0 <= i < |input| && AllRejected(answer, input[..i]) && answer(input[i]) == Some(v) && rest == input[i + 1..] {
      var i :| 0 <= i < |input| && AllRejected(answer, input[..i]) && answer(input[i]) == Some(v) && rest == input[i + 1..];
      AskAcceptsAt(answer, input, i);
    }
  }

  /** `answer` accepts some line as `v`. */
  ghost predicate Answered<T>(answer: string -> Option<T>, v: T) {
    exists line :: answer(line) == Some(v)
  }

  /**
   * What a reader yields: the value already given, with no line read, or a
   * value `answer` accepts for some line, with fewer lines left.
   */
  lemma AskAnswered<T>(value: Option<T>, answer: string -> Option<T>, input: seq<string>)
    requires Ask(value, answer, input).Accepted?
    ensures value.Some? ==> Ask(value, answer, input) == Accepted(value.value, input)
    ensures value.None? ==> Answered(answer, Ask(value, answer, input).value) && |Ask(value, answer, input).rest| < |input|
  {
    if value.None? {
      var r := Ask(value, answer, input);
      AskAcceptsFirst(answer, input, r.value, r.rest);
      var i :| 0 <= i < |input| && AllRejected(answer, input[..i]) && answer(input[i]) == Some(r.value) && r.rest == input[i + 1..];
      assert answer(input[i]) == Some(r.value);
    }
  }

  /** Lines that are all rejected before the input change nothing: the reader asks again. */
  lemma {:induction false} AskSkipsRejected<T>(answer: string -> Option<T>, rejected: seq<string>, input: seq<string>)
    requires AllRejected(answer, rejected)
    ensures Ask(None, answer, rejected + input) == Ask(None, answer, input)
    decreases |rejected|
  {
    if rejected != [] {
      assert answer(rejected[0]).None?;
      assert (rejected + input)[0] == rejected[0];
      assert (rejected + input)[1..] == rejected[1..] + input;
      assert AllRejected(answer, rejected[1..]) by {
        forall j | 0 <= j < |rejected| - 1 ensures answer(rejected[1..][j]).None? {
          assert rejected[1..][j] == rejected[j + 1];
        }
      }
      AskSkipsRejected(answer, rejected[1..], input);
    } else {
      assert rejected + input == input;
    }
  }

  /** A reader looks no further than the line it accepts: lines after the input stay unread. */
  lemma {:induction false} AskExtends<T>(value: Option<T>, answer: string -> Option<T>, input: seq<string>, more: seq<string>)
    requires Ask(value, answer, input).Accepted?
    ensures Ask(value, answer, input + more) ==
      Accepted(Ask(value, answer, input).value, Ask(value, answer, input).rest + more)
    decreases |input|
  {
    if value.None? {
      assert (input + more)[0] == input[0];
      assert (input + more)[1..] == input[1..] + more;
      if answer(input[0]).None? {
        AskExtends(value, answer, input[1..], more);
      }
    }
  }

  // Each reader on the numeral of an integer.

  /** The yes/no menu: the numeral 1 reads as yes, 2 as no, and every other number (0, 3, ...) is rejected. */
  lemma BoolAnswerOfNumeral(n: int)
    ensures BoolAnswer(Numeral(n)) == if n == 1 then Some(true) else if n == 2 then Some(false) else None
  {
    ParseNumeral(n);
  }

  /** The count readers accept exactly the positive numbers that fit in 32 bits. */
  lemma IntAnswerOfNumeral(n: int)
    ensures IntAnswer(Numeral(n)) == if 0 < n <= MAX_INT32 then Some(n) else None
  {
    ParseNumeral(n);
  }

  /** The UTC offset reader accepts exactly the numbers 0 to 23. */
  lemma HoursAnswerOfNumeral(n: int)
    ensures HoursAnswer(Numeral(n)) == if 0 <= n <= 23 then Some(n) else None
  {
    ParseNumeral(n);
  }

  /** The month reader accepts exactly the numbers 1 to 12. */
  lemma MonthAnswerOfNumeral(n: int)
    ensures MonthAnswer(Numeral(n)) == if 1 <= n <= 12 then Some(n) else None
  {
    ParseNumeral(n);
  }

  /** The day reader accepts exactly the days of the month in the given year. */
  lemma DateAnswerOfNumeral(year: int, month: int, n: int)
    ensures DateAnswer(year, month)(Numeral(n)) == if IsCalendarDate(year, month, n) then Some(n) else None
  {
    ParseNumeral(n);
  }

  /** The string reader skips empty lines and returns the first non-empty one unchanged. */
  lemma {:induction false} StringAnswerSkipsEmpty(empties: nat, line: string, rest: seq<string>)
    requires line != ""
    ensures Ask(None, StringAnswer, seq(empties, _ => "") + [line] + rest) == Accepted(line, rest)
  {
    var blank := seq(empties, _ => "");
    assert AllRejected(StringAnswer, blank);
    assert blank + [line] + rest == blank + ([line] + rest);
    AskSkipsRejected(StringAnswer, blank, [line] + rest);
  }

  /** Day 31 of June is rejected and the question asked again; day 15 is then accepted. */
  lemma JuneDayReprompt(year: int, rest: seq<string>)
    requires 1 <= year <= 9999
    ensures Ask(None, DateAnswer(year, 6), ["31", "15"] + rest) == Accepted(15, rest)
  {
    var june := DateAnswer(year, 6);
    var lines := ["31", "15"] + rest;
    JuneDays(year);
    assert lines[..1] == ["31"] && lines[1] == "15" && lines[2..] == rest;
    assert AllRejected(june, lines[..1]);
    AskAcceptsAt(june, lines, 1);
  }

  lemma JuneDays(year: int)
    requires 1 <= year <= 9999
    ensures DateAnswer(year, 6)("31") == None && DateAnswer(year, 6)("15") == Some(15)
  {
    assert Numeral(31) == "31" by {
      assert Digits(31) == Digits(3) + [DigitChar(1)];
    }
    assert Numeral(15) == "15" by {
      assert Digits(15) == Digits(1) + [DigitChar(5)];
    }
    DateAnswerOfNumeral(year, 6, 31);
    DateAnswerOfNumeral(year, 6, 15);
  }
}
