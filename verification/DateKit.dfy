/**
 The front end's date helpers: printing a date for display, reading it back for the wire, and
 classifying a hold by its end date.
 */
module DateKit {
  import opened Common

  // ----- the calendar -----

  /** month counts from 0, as JavaScript's does. */
  datatype Civil = Civil(year: int, month: int, day: int)

  predicate Leap(y: int) {
    y % 4 == 0 && (y % 100 != 0 || y % 400 == 0)
  }

  function DaysIn(y: int, m: int): int {
    if m == 1 then if Leap(y) then 29 else 28
    else if m == 3 || m == 5 || m == 8 || m == 10 then 30
    else 31
  }

  predicate Valid(c: Civil) {
    0 <= c.month < 12 && 1 <= c.day <= DaysIn(c.year, c.month)
  }

  /** Days before the month begins, counted from the start of its year. */
  function BeforeMonth(y: int, m: int): int
    requires 0 <= m <= 12
  {
    if m == 0 then 0 else BeforeMonth(y, m - 1) + DaysIn(y, m - 1)
  }

  /** Days before the year begins, counted from a fixed year. */
  function BeforeYear(y: int): int {
    365 * y + (y + 3) / 4 - (y + 99) / 100 + (y + 399) / 400
  }

  function DayNumber(c: Civil): int
    requires 0 <= c.month < 12
  {
    BeforeYear(c.year) + BeforeMonth(c.year, c.month) + c.day
  }

  function NextMonth(y: int, m: int): (int, int) {
    if m == 11 then (y + 1, 0) else (y, m + 1)
  }

  function PreviousMonth(y: int, m: int): (int, int) {
    if m == 0 then (y - 1, 11) else (y, m - 1)
  }

  lemma YearDays(y: int)
    ensures BeforeMonth(y, 12) == if Leap(y) then 366 else 365
  {
    var leap := if Leap(y) then 1 else 0;
    assert BeforeMonth(y, 1) == 31;
    assert BeforeMonth(y, 2) == 59 + leap;
    assert BeforeMonth(y, 3) == 90 + leap;
    assert BeforeMonth(y, 4) == 120 + leap;
    assert BeforeMonth(y, 5) == 151 + leap;
    assert BeforeMonth(y, 6) == 181 + leap;
    assert BeforeMonth(y, 7) == 212 + leap;
    assert BeforeMonth(y, 8) == 243 + leap;
    assert BeforeMonth(y, 9) == 273 + leap;
    assert BeforeMonth(y, 10) == 304 + leap;
    assert BeforeMonth(y, 11) == 334 + leap;
  }

  lemma By4(y: int)
    ensures (y + 4) / 4 - (y + 3) / 4 == if y % 4 == 0 then 1 else 0
  {
  }

  lemma By100(y: int)
    ensures (y + 100) / 100 - (y + 99) / 100 == if y % 100 == 0 then 1 else 0
    ensures y % 100 == 0 ==> y % 4 == 0
  {
    assert y == 100 * (y / 100) + y % 100;
  }

  lemma By400(y: int)
    ensures (y + 400) / 400 - (y + 399) / 400 == if y % 400 == 0 then 1 else 0
    ensures y % 400 == 0 ==> y % 100 == 0
  {
    assert y == 400 * (y / 400) + y % 400;
  }

  lemma YearLength(y: int)
    ensures BeforeYear(y + 1) == BeforeYear(y) + BeforeMonth(y, 12)
  {
    YearDays(y);
    By4(y);
    By100(y);
    By400(y);
  }

  /** The first of the next month is one month's days later. */
  lemma MonthLength(y: int, m: int)
    requires 0 <= m < 12
    ensures var (y', m') := NextMonth(y, m); DayNumber(Civil(y', m', 1)) == DayNumber(Civil(y, m, 1)) + DaysIn(y, m)
  {
    YearLength(y);
  }

  // ----- JavaScript dates at local midnight -----

  /** A day count carried over into neighbouring months, as the Date constructor does. */
  function Roll(y: int, m: int, d: int): (c: Civil)
    requires 0 <= m < 12
    ensures Valid(c) && DayNumber(c) == DayNumber(Civil(y, m, 1)) + d - 1
    decreases if d < 1 then 1 - d else d
  {
    if d < 1 then
      var (y', m') := PreviousMonth(y, m);
      MonthLength(y', m');
      if d + DaysIn(y', m') >= 1 then Civil(y', m', d + DaysIn(y', m')) else Roll(y', m', d + DaysIn(y', m'))
    else if d > DaysIn(y, m) then
      var (y', m') := NextMonth(y, m);
      MonthLength(y, m);
      Roll(y', m', d - DaysIn(y, m))
    else Civil(y, m, d)
  }

  /** The first and last day a Date can hold. */
  const FIRST := Civil(-271821, 3, 20)
  const LAST := Civil(275760, 8, 13)

  predicate NotAfter(c: Civil, d: Civil) {
    c.year < d.year || (c.year == d.year && (c.month < d.month || (c.month == d.month && c.day <= d.day)))
  }

  predicate Within(c: Civil) {
    NotAfter(FIRST, c) && NotAfter(c, LAST)
  }

  function FullYear(y: int): int {
    if 0 <= y < 100 then 1900 + y else y
  }

  /** new Date(y, m, d); None stands for an invalid date. Years from 0 to 99 are of the twentieth century. */
  function Make(y: int, m: int, d: int): Option<Civil> {
    var year := FullYear(y) + m / 12;
    Clip(Roll(year, m % 12, d))
  }

  function Clip(c: Civil): Option<Civil> {
    if Within(c) then Some(c) else None
  }

  function AddDays(base: Civil, n: int): Option<Civil> {
    Make(base.year, base.month, base.day + n)
  }

  lemma {:induction false} MonthsRise(y: int, m: int, m': int)
    requires 0 <= m < m' <= 12
    ensures BeforeMonth(y, m) + DaysIn(y, m) <= BeforeMonth(y, m')
    decreases m' - m
  {
    if m + 1 < m' {
      MonthsRise(y, m, m' - 1);
    }
  }

  lemma {:induction false} YearsRise(y: int, y': int)
    requires y < y'
    ensures BeforeYear(y) + BeforeMonth(y, 12) <= BeforeYear(y')
    decreases y' - y
  {
    YearLength(y' - 1);
    if y + 1 < y' {
      YearsRise(y, y' - 1);
      YearDays(y' - 1);
    }
  }

  /** A date lies in its own year. */
  lemma InYear(c: Civil)
    requires Valid(c)
    ensures BeforeYear(c.year) < DayNumber(c) <= BeforeYear(c.year) + BeforeMonth(c.year, 12)
  {
    MonthsRise(c.year, c.month, 12);
    if c.month > 0 {
      MonthsRise(c.year, 0, c.month);
    }
  }

  /** A later date has a later day number, so a day number belongs to one date. */
  lemma OneDate(c: Civil, d: Civil)
    requires Valid(c) && Valid(d) && DayNumber(c) == DayNumber(d)
    ensures c == d
  {
    InYear(c);
    InYear(d);
    if c.year < d.year {
      YearsRise(c.year, d.year);
    } else if d.year < c.year {
      YearsRise(d.year, c.year);
    } else if c.month < d.month {
      MonthsRise(c.year, c.month, d.month);
    } else if d.month < c.month {
      MonthsRise(c.year, d.month, c.month);
    }
  }

  lemma AddDaysRolls(base: Civil, n: int)
    requires Valid(base)
    ensures AddDays(base, n) == Clip(Roll(FullYear(base.year), base.month, base.day + n))
  {
    assert base.month / 12 == 0 && base.month % 12 == base.month;
  }

  lemma MovedLater(y: int, m: int)
    requires 0 <= m < 12
    ensures DayNumber(Civil(y + 1900, m, 1)) > DayNumber(Civil(y, m, 1))
  {
    InYear(Civil(y, m, 1));
    InYear(Civil(y + 1900, m, 1));
    YearsRise(y, y + 1900);
  }

  lemma RollCounts(c: Civil, n: int)
    requires 0 <= c.month < 12
    ensures DayNumber(Roll(c.year, c.month, c.day + n)) == DayNumber(c) + n
  {
  }

  /** The date it names is that many days later, exactly unless the constructor moves the year. */
  lemma AddDaysCounts(base: Civil, n: int)
    requires Valid(base) && AddDays(base, n).Some?
    ensures Valid(AddDays(base, n).value)
    ensures DayNumber(AddDays(base, n).value) == DayNumber(base) + n <==> !(0 <= base.year < 100)
  {
    AddDaysRolls(base, n);
    RollCounts(Civil(FullYear(base.year), base.month, base.day), n);
    if 0 <= base.year < 100 {
      MovedLater(base.year, base.month);
    }
  }

  lemma RollChains(base: Civil, mid: Civil, n: int, k: int)
    requires Valid(base) && mid == Roll(base.year, base.month, base.day + n)
    ensures Roll(mid.year, mid.month, mid.day + k) == Roll(base.year, base.month, base.day + (n + k))
  {
    RollCounts(base, n);
    RollCounts(mid, k);
    RollCounts(base, n + k);
    OneDate(Roll(mid.year, mid.month, mid.day + k), Roll(base.year, base.month, base.day + (n + k)));
  }

  /** Adding twice is adding once, ... */
  lemma AddDaysChains(base: Civil, mid: Civil, n: int, k: int)
    requires Valid(base) && !(0 <= base.year < 100) && AddDays(base, n) == Some(mid) && !(0 <= mid.year < 100)
    ensures AddDays(mid, k) == AddDays(base, n + k)
  {
    AddDaysRolls(base, n);
    assert mid == Roll(base.year, base.month, base.day + n);
    AddDaysRolls(mid, k);
    AddDaysRolls(base, n + k);
    RollChains(base, mid, n, k);
  }

  lemma AddNothing(base: Civil)
    requires Valid(base) && Within(base) && !(0 <= base.year < 100)
    ensures AddDays(base, 0) == Some(base)
  {
    AddDaysRolls(base, 0);
  }

  /** ... and what is added can be taken off again. */
  lemma AddDaysBack(base: Civil, mid: Civil, n: int, back: int)
    requires Valid(base) && Within(base) && !(0 <= base.year < 100) && n + back == 0
    requires AddDays(base, n) == Some(mid) && !(0 <= mid.year < 100)
    ensures AddDays(mid, back) == Some(base)
  {
    AddDaysChains(base, mid, n, back);
    AddNothing(base);
  }

  // ----- text -----

  predicate White(c: char) {
    c == ' ' || '\t' <= c <= '\r' || c == '\U{00a0}' || c == '\U{1680}' || '\U{2000}' <= c <= '\U{200a}'
    || c == '\U{2028}' || c == '\U{2029}' || c == '\U{202f}' || c == '\U{205f}' || c == '\U{3000}' || c == '\U{feff}'
  }

  predicate Digit(c: char) {
    '0' <= c <= '9'
  }

  predicate AllDigits(s: string) {
    forall i | 0 <= i < |s| :: Digit(s[i])
  }

  predicate IsDigits(s: string) {
    s != "" && AllDigits(s)
  }

  function TrimStart(s: string): (t: string)
    ensures if s != "" && White(s[0]) then |t| < |s| else t == s
  {
    if s != "" && White(s[0]) then TrimStart(s[1..]) else s
  }

  function TrimEnd(s: string): string {
    if s != "" && White(s[|s| - 1]) then TrimEnd(s[..|s| - 1]) else s
  }

  function Trim(s: string): string {
    TrimEnd(TrimStart(s))
  }

  /** Without full stops and commas. */
  function Strip(s: string): string {
    if s == "" then "" else (if s[0] == '.' || s[0] == ',' then "" else [s[0]]) + Strip(s[1..])
  }

  /** Split at each run of white space. */
  function Split(s: string): (parts: seq<string>)
    ensures parts != []
    decreases |s|
  {
    if s == "" then [""]
    else if White(s[0]) then [""] + Split(TrimStart(s))
    else
      var rest := Split(s[1..]);
      [[s[0]] + rest[0]] + rest[1..]
  }

  function Value(s: string): nat
    requires AllDigits(s)
  {
    if s == "" then 0 else 10 * Value(s[..|s| - 1]) + (s[|s| - 1] - '0') as nat
  }

  /** Unary plus; None stands for NaN. Forms other than digits are not numbers here. */
  function Number(s: string): Option<nat> {
    if AllDigits(s) then Some(Value(s)) else None
  }

  function Lower(c: char): char {
    if 'A' <= c <= 'Z' then c - 'A' + 'a' else c
  }

  function LowerAll(s: string): string {
    seq(|s|, i requires 0 <= i < |s| => Lower(s[i]))
  }

  function Digits(n: nat): string {
    if n < 10 then [n as char + '0'] else Digits(n / 10) + [(n % 10) as char + '0']
  }

  function Pad2(n: nat): string {
    if |Digits(n)| < 2 then "0" + Digits(n) else Digits(n)
  }

  // ----- the helpers -----

  const PREFIXES := ["jan", "feb", "mar", "apr", "may", "jun", "jul", "aug", "sep", "oct", "nov", "dec"]

  function MonthFrom(prefix: string, k: nat): Option<nat>
    requires k <= 12
    decreases 12 - k
  {
    if k == 12 then None else if PREFIXES[k] == prefix then Some(k) else MonthFrom(prefix, k + 1)
  }

  /** The month a word names by its first three letters. */
  function MonthIndex(word: string): Option<nat> {
    MonthFrom(LowerAll(if |word| > 3 then word[..3] else word), 0)
  }

  /** yyyy-mm-dd, digit by digit. */
  predicate IsoShape(s: string) {
    |s| == 10 && forall i | 0 <= i < 10 :: if i == 4 || i == 7 then s[i] == '-' else Digit(s[i])
  }

  /** engine stands for the engine's own parser, the last resort. */
  function ParseLoose(s: string, engine: string -> Option<Civil>): Option<Civil> {
    var str := Trim(s);
    if str == "" then None
    else if IsoShape(str) then Make(Value(str[..4]), Value(str[5..7]) - 1, Value(str[8..]))
    else
      match ParseParts(Split(Strip(str)))
      case Some(made) => made
      case None => engine(str)
  }

  /** Three words, the day before the month or after it; None if they are not a date. */
  function ParseParts(parts: seq<string>): Option<Option<Civil>> {
    if |parts| != 3 then None
    else
      var (day, mon) := if IsDigits(parts[0]) then (parts[0], parts[1]) else (parts[1], parts[0]);
      match (MonthIndex(mon), Number(day), Number(parts[2]))
      case (Some(m), Some(d), Some(y)) => if 1 <= d <= 31 && y > 0 then Some(Make(y, m, d)) else None
      case _ => None
  }

  function IsoLocal(c: Civil): string
    requires Valid(c) && c.year >= 0
  {
    Digits(c.year) + "-" + Pad2(c.month + 1) + "-" + Pad2(c.day)
  }

  function ToIsoDate(s: string, engine: string -> Option<Civil>): Option<string> {
    var str := Trim(s);
    if s == "" then None
    else if IsoShape(str) then Some(str)
    else
      match ParseLoose(str, engine)
      case None => None
      case Some(c) => if Valid(c) && c.year >= 0 then Some(IsoLocal(c)) else None
  }

  const MONTHS := ["Jan", "Feb", "Mar", "Apr", "May", "Jun", "Jul", "Aug", "Sep", "Oct", "Nov", "Dec"]

  /** The short month of the British locale; engines differ on September. */
  function ShortMonth(m: int, sept: bool): string
    requires 0 <= m < 12
  {
    if m == 8 && sept then "Sept" else MONTHS[m]
  }

  function FmtGB(c: Civil, sept: bool): string
    requires Valid(c) && c.year >= 1
  {
    Digits(c.day) + " " + ShortMonth(c.month, sept) + " " + Digits(c.year)
  }

  // ----- reading back what was printed -----

  lemma {:induction false} DigitsAreDigits(n: nat)
    ensures IsDigits(Digits(n))
    ensures Value(Digits(n)) == n
  {
    if n < 10 {
      assert Digits(n)[..0] == "";
      assert Value("") == 0;
    } else {
      DigitsAreDigits(n / 10);
      var s := Digits(n);
      assert s[..|s| - 1] == Digits(n / 10);
    }
  }

  /** A word of a printed date: no white space and no punctuation. */
  ghost predicate Word(s: string) {
    s != "" && forall i | 0 <= i < |s| :: !White(s[i]) && s[i] != '.' && s[i] != ','
  }

  lemma {:induction false} StripWord(s: string, rest: string)
    requires forall i | 0 <= i < |s| :: s[i] != '.' && s[i] != ','
    ensures Strip(s + rest) == s + Strip(rest)
  {
    if s == "" {
      assert s + rest == rest && s + Strip(rest) == Strip(rest);
    } else {
      assert (s + rest)[1..] == s[1..] + rest;
      assert (s + rest)[0] == s[0];
      StripWord(s[1..], rest);
      assert [s[0]] + (s[1..] + Strip(rest)) == s + Strip(rest);
    }
  }

  lemma {:induction false} SplitWord(s: string, rest: string)
    requires Word(s) && (rest == "" || White(rest[0]))
    ensures Split(s + rest) == [s] + Split(rest)[1..]
    ensures Split(rest)[0] == ""
  {
    var all := s + rest;
    assert all[0] == s[0];
    assert all[1..] == s[1..] + rest;
    if |s| == 1 {
      assert all[1..] == rest;
      assert s == [s[0]] + "";
    } else {
      SplitWord(s[1..], rest);
      assert s == [s[0]] + s[1..];
    }
  }

  lemma SplitSpace(s: string)
    requires s != "" && !White(s[0])
    ensures Split(" " + s) == [""] + Split(s)
  {
    assert (" " + s)[1..] == s;
    assert TrimStart(" " + s) == s;
  }

  lemma SplitThree(a: string, b: string, c: string)
    requires Word(a) && Word(b) && Word(c)
    ensures Split(a + (" " + (b + (" " + c)))) == [a, b, c]
  {
    SplitWord(c, "");
    assert c + "" == c;
    assert Split("")[1..] == [];
    SplitSpace(c);
    SplitWord(b, " " + c);
    assert (b + (" " + c))[0] == b[0];
    SplitSpace(b + (" " + c));
    SplitWord(a, " " + (b + (" " + c)));
  }

  lemma TrimNothing(s: string)
    requires s != "" && !White(s[0]) && !White(s[|s| - 1])
    ensures Trim(s) == s
  {
  }

  lemma StripWords(a: string, b: string, comma: string, c: string)
    requires Word(a) && Word(b) && Word(c) && (comma == "" || comma == ",")
    ensures Strip(a + (" " + (b + (comma + (" " + c))))) == a + (" " + (b + (" " + c)))
  {
    var tail := comma + (" " + c);
    StripWord(a, " " + (b + tail));
    StripWord(" ", b + tail);
    StripWord(b, tail);
    StripTail(comma, c);
  }

  lemma StripTail(comma: string, c: string)
    requires Word(c) && (comma == "" || comma == ",")
    ensures Strip(comma + (" " + c)) == " " + c
  {
    StripWord(" ", c);
    StripWord(c, "");
    assert c + "" == c;
    if comma == "" {
      assert comma + (" " + c) == " " + c;
    } else {
      assert (comma + (" " + c))[1..] == " " + c;
    }
  }

  /** Two or more words, the first followed by a space: nothing to trim, and not the wire form. */
  lemma NotTrimmed(a: string, middle: string, c: string)
    requires Word(a) && Word(c)
    ensures var s := a + (" " + (middle + c)); Trim(s) == s && s != "" && !IsoShape(s)
  {
    var s := a + (" " + (middle + c));
    assert s[0] == a[0];
    assert s[|s| - 1] == c[|c| - 1];
    TrimNothing(s);
    assert s[|a|] == ' ';
  }

  /** Three words with single spaces, possibly with a comma after the second: ParseLoose sees the words. */
  lemma ReadsWords(a: string, b: string, comma: string, c: string, engine: string -> Option<Civil>)
    requires Word(a) && Word(b) && Word(c) && (comma == "" || comma == ",")
    requires ParseParts([a, b, c]).Some?
    ensures ParseLoose(a + (" " + (b + (comma + (" " + c)))), engine) == ParseParts([a, b, c]).value
  {
    assert b + (comma + (" " + c)) == (b + comma + " ") + c;
    NotTrimmed(a, b + comma + " ", c);
    StripWords(a, b, comma, c);
    SplitThree(a, b, c);
  }

  lemma ShortMonthReads(m: int, sept: bool)
    requires 0 <= m < 12
    ensures MonthIndex(ShortMonth(m, sept)) == Some(m) && Word(ShortMonth(m, sept))
    ensures !IsDigits(ShortMonth(m, sept))
  {
    var w := ShortMonth(m, sept);
    assert |w| >= 3;
    assert |w| > 3 ==> w[..3] == "Sep";
    assert LowerAll(if |w| > 3 then w[..3] else w) == PREFIXES[m];
    MonthFound(m, 0);
    assert !Digit(w[0]);
  }

  lemma {:induction false} MonthFound(m: nat, k: nat)
    requires k <= m < 12
    ensures MonthFrom(PREFIXES[m], k) == Some(m)
    decreases m - k
  {
    if k < m {
      assert PREFIXES[k] != PREFIXES[m] by {
        PrefixesDiffer(k, m);
      }
      MonthFound(m, k + 1);
    }
  }

  lemma PrefixesDiffer(j: nat, k: nat)
    requires j < k < 12
    ensures PREFIXES[j] != PREFIXES[k]
  {
    assert PREFIXES[j][0] != PREFIXES[k][0] || PREFIXES[j][1] != PREFIXES[k][1] || PREFIXES[j][2] != PREFIXES[k][2];
  }

  lemma DigitsAreAWord(n: nat)
    ensures Word(Digits(n)) && IsDigits(Digits(n)) && Number(Digits(n)) == Some(n)
  {
    DigitsAreDigits(n);
  }

  /** The words of a displayed date, the day before the month or after it. */
  lemma WordsRead(c: Civil, sept: bool)
    requires Valid(c) && c.year >= 1
    ensures Word(Digits(c.day)) && Word(ShortMonth(c.month, sept)) && Word(Digits(c.year))
    ensures ParseParts([Digits(c.day), ShortMonth(c.month, sept), Digits(c.year)])
         == Some(Make(c.year, c.month, c.day))
    ensures ParseParts([ShortMonth(c.month, sept), Digits(c.day), Digits(c.year)])
         == Some(Make(c.year, c.month, c.day))
  {
    DigitsAreAWord(c.day);
    DigitsAreAWord(c.year);
    ShortMonthReads(c.month, sept);
  }

  lemma Spaced(a: string, b: string, c: string)
    ensures a + " " + b + " " + c == a + (" " + (b + ("" + (" " + c))))
    ensures a + " " + b + ", " + c == a + (" " + (b + ("," + (" " + c))))
  {
    assert ", " == "," + " ";
  }

  /** What the display form of a date reads back as. */
  lemma ReadsBack(c: Civil, sept: bool, engine: string -> Option<Civil>)
    requires Valid(c) && c.year >= 1
    ensures ParseLoose(FmtGB(c, sept), engine) == Make(c.year, c.month, c.day)
  {
    var a, b, y := Digits(c.day), ShortMonth(c.month, sept), Digits(c.year);
    WordsRead(c, sept);
    Spaced(a, b, y);
    ReadsWords(a, b, "", y, engine);
  }

  /** The same for the older display form, month first and with a comma. */
  lemma ReadsBackLegacy(c: Civil, sept: bool, engine: string -> Option<Civil>)
    requires Valid(c) && c.year >= 1
    ensures ParseLoose(ShortMonth(c.month, sept) + " " + Digits(c.day) + ", " + Digits(c.year), engine)
         == Make(c.year, c.month, c.day)
  {
    var a, b, y := ShortMonth(c.month, sept), Digits(c.day), Digits(c.year);
    WordsRead(c, sept);
    Spaced(a, b, y);
    ReadsWords(a, b, ",", y, engine);
  }

  lemma MakeValid(c: Civil)
    requires Valid(c) && c.year >= 100 && Within(c)
    ensures Make(c.year, c.month, c.day) == Some(c)
  {
    assert c.month / 12 == 0 && c.month % 12 == c.month;
  }

  /** A year below 100 is moved; the 29th of February may move on to March. */
  lemma MakeMoves(c: Civil)
    requires Valid(c) && 0 <= c.year < 100
    ensures match Make(c.year, c.month, c.day)
            case None => false
            case Some(moved) => Valid(moved) && moved.year == 1900 + c.year
  {
    assert c.month / 12 == 0 && c.month % 12 == c.month;
    var y := 1900 + c.year;
    if c.day > DaysIn(y, c.month) {
      assert c.month == 1 && c.day == 29 && DaysIn(y, 1) == 28;
      assert Roll(y, 1, 29) == Roll(y, 2, 1) == Civil(y, 2, 1);
    } else {
      assert Roll(y, c.month, c.day) == Civil(y, c.month, c.day);
    }
  }

  lemma {:induction false} DigitsLength(n: nat)
    ensures |Digits(n)| <= 2 <==> n < 100
  {
    if n >= 100 {
      assert |Digits(n / 10)| >= 2;
    }
  }

  lemma IsoLocalYear(c: Civil, k: nat)
    requires Valid(c) && c.year >= 0 && k <= |Digits(c.year)|
    ensures k < |IsoLocal(c)|
    ensures if k < |Digits(c.year)| then Digit(IsoLocal(c)[k]) else IsoLocal(c)[k] == '-'
  {
    DigitsAreDigits(c.year);
    var y := Digits(c.year);
    if k < |y| {
      assert IsoLocal(c)[k] == y[k];
    }
  }

  lemma Grouped(a: string, b: string, c: string)
    ensures a + " " + b + " " + c == a + (" " + ((b + " ") + c))
  {
  }

  lemma DisplayNotTrimmed(c: Civil, sept: bool)
    requires Valid(c) && c.year >= 1
    ensures var s := FmtGB(c, sept); Trim(s) == s && s != "" && !IsoShape(s)
  {
    var a, b, y := Digits(c.day), ShortMonth(c.month, sept), Digits(c.year);
    WordsRead(c, sept);
    NotTrimmed(a, b + " ", y);
    Grouped(a, b, y);
  }

  /** Dates of different centuries, one of them the first, look different on the wire. */
  lemma CenturyShows(c: Civil, moved: Civil)
    requires Valid(c) && 0 <= c.year < 100 && Valid(moved) && moved.year >= 100
    ensures IsoLocal(c) != IsoLocal(moved)
  {
    DigitsLength(c.year);
    DigitsLength(moved.year);
    IsoLocalYear(c, |Digits(c.year)|);
    IsoLocalYear(moved, |Digits(c.year)|);
  }

  /**
   A printed date goes to the wire as the date it shows, whatever the engine's own parser does and
   however it abbreviates September, exactly when its year has at least three digits: the Date
   constructor moves the years below 100 into the twentieth century.
   */
  lemma DisplayRoundTrip(c: Civil, sept: bool, engine: string -> Option<Civil>)
    requires Valid(c) && c.year >= 1 && Within(c)
    ensures ToIsoDate(FmtGB(c, sept), engine) == Some(IsoLocal(c)) <==> c.year >= 100
  {
    ReadsBack(c, sept, engine);
    DisplayNotTrimmed(c, sept);
    if c.year < 100 {
      MakeMoves(c);
      CenturyShows(c, Make(c.year, c.month, c.day).value);
    } else {
      MakeValid(c);
    }
  }

  // ----- the state of a hold -----

  datatype State = Overdue | ExpiringSoon | Active

  /** Milliseconds. */
  const DAY: int := 86400000

  /** Math.round of a quotient by the length of a day: to the nearest whole, halves up. */
  function RoundDays(ms: int): int {
    (2 * ms + DAY) / (2 * DAY)
  }

  function DeriveState(until: Option<int>, today: Option<int>): State {
    match (until, today)
    case (Some(u), Some(t)) =>
      var days := RoundDays(u - t);
      if days < 0 then Overdue else if days < 7 then ExpiringSoon else Active
    case _ => Active
  }

  /** The instant of a local midnight: the day count, less the local offset from UTC then. */
  function Midnight(day: int, offset: int): int {
    day * DAY - offset
  }

  /** The condition the service's query puts on a hold for each state. */
  predicate Clause(state: State, heldUntil: int, today: int) {
    match state
    case Overdue => heldUntil < today
    case ExpiringSoon => heldUntil >= today && heldUntil < today + 7
    case Active => heldUntil >= today + 7
  }

  ghost predicate Agrees(until: int, today: int, o: int, o': int) {
    Clause(DeriveState(Some(Midnight(until, o)), Some(Midnight(today, o'))), until, today)
  }

  lemma RoundsTo(days: int, shift: int)
    requires -DAY < 2 * shift <= DAY
    ensures RoundDays(days * DAY - shift) == days
  {
    assert 2 * (days * DAY - shift) + DAY == days * (2 * DAY) + (DAY - 2 * shift);
    assert 0 <= DAY - 2 * shift < 2 * DAY;
  }

  /**
   The browser and the service put every hold into the same state exactly when the two midnights'
   offsets from UTC differ by less than twelve hours (or by twelve, the hold's being ahead).
   */
  lemma StatesAgreeExactly(o: int, o': int)
    ensures (forall until, today :: Agrees(until, today, o, o')) <==> -DAY < 2 * (o - o') <= DAY
  {
    if -DAY < 2 * (o - o') <= DAY {
      forall until, today ensures Agrees(until, today, o, o') {
        RoundsTo(until - today, o - o');
        assert Midnight(until, o) - Midnight(today, o') == (until - today) * DAY - (o - o');
      }
    } else if 2 * (o - o') > DAY {
      assert !Agrees(0, 0, o, o');
    } else {
      assert !Agrees(0, 1, o, o');
    }
  }
}
