/**
 Schedule intervals: the printer of the plugin, which works from milliseconds, and the parser of the
 scheduler.  They undo each other exactly on intervals written in their largest unit.
 */
module Intervals {
  import opened Wrappers
  import opened Text

  // ---------------------------------------------------------------- decimal numbers

  function DigitChar(d: nat): char
    requires d < 10
  {
    (d + '0' as int) as char
  }

  predicate IsDigit(c: char) {
    '0' <= c <= '9'
  }

  function DigitValue(c: char): nat
    requires IsDigit(c)
  {
    c as int - '0' as int
  }

  function Decimal(n: nat): (s: string)
    ensures s != [] && forall i :: 0 <= i < |s| ==> IsDigit(s[i])
    ensures n > 0 ==> s[0] != '0'
  {
    if n < 10 then [DigitChar(n)] else Decimal(n / 10) + [DigitChar(n % 10)]
  }

  predicate AllDigits(s: string) {
    forall i :: 0 <= i < |s| ==> IsDigit(s[i])
  }

  function Number(s: string): nat
    requires AllDigits(s)
  {
    if s == [] then 0 else 10 * Number(s[..|s| - 1]) + DigitValue(s[|s| - 1])
  }

  lemma {:induction false} NumberOfDecimal(n: nat)
    ensures Number(Decimal(n)) == n
  {
    if n >= 10 {
      NumberOfDecimal(n / 10);
      assert Decimal(n)[..|Decimal(n)| - 1] == Decimal(n / 10);
    } else {
      assert Decimal(n)[..0] == [];
    }
  }

  lemma {:induction false} DecimalOfNumber(s: string)
    requires s != [] && AllDigits(s) && s[0] != '0'
    ensures Number(s) > 0 && Decimal(Number(s)) == s
  {
    if |s| == 1 {
      assert Number(s[..0]) == 0;
    } else {
      DecimalOfNumber(s[..|s| - 1]);
    }
  }

  // ---------------------------------------------------------------- units

  datatype Unit = Second | Minute | Hour | Day

  function Millis(u: Unit): nat {
    match u
    case Second => 1_000
    case Minute => 60_000
    case Hour => 3_600_000
    case Day => 86_400_000
  }

  function Letter(u: Unit): char {
    match u
    case Second => 's'
    case Minute => 'm'
    case Hour => 'h'
    case Day => 'd'
  }

  function UnitOf(c: char): Option<Unit> {
    if c == 's' then Some(Second) else if c == 'm' then Some(Minute)
    else if c == 'h' then Some(Hour) else if c == 'd' then Some(Day) else None
  }

  function Written(amount: nat, u: Unit): string {
    Decimal(amount) + [Letter(u)]
  }

  /** `millisecondsToEvery`; `None` where it throws. */
  function Print(ms: int): Option<string> {
    if ms <= 0 then None
    else if ms % Millis(Day) == 0 then Some(Written(ms / Millis(Day), Day))
    else if ms % Millis(Hour) == 0 then Some(Written(ms / Millis(Hour), Hour))
    else if ms % Millis(Minute) == 0 then Some(Written(ms / Millis(Minute), Minute))
    else if ms % Millis(Second) == 0 then Some(Written(ms / Millis(Second), Second))
    else None
  }

  /** The pattern of `_duration_ms`: a positive decimal number and a unit letter. */
  predicate IsDuration(text: string) {
    && |text| >= 2 && AllDigits(text[..|text| - 1]) && text[0] != '0' && UnitOf(text[|text| - 1]).Some?
  }

  /** `_duration_ms`. */
  function Parse(text: string): Option<nat> {
    var value := Lower(Strip(text));
    if IsDuration(value) then
      Some(Number(value[..|value| - 1]) * Millis(UnitOf(value[|value| - 1]).value))
    else None
  }

  /** No larger unit divides the amount. */
  predicate IsLargest(amount: nat, u: Unit) {
    match u
    case Second => amount % 60 != 0
    case Minute => amount % 60 != 0
    case Hour => amount % 24 != 0
    case Day => true
  }

  /** Written in the largest unit that divides it, without blanks or capitals. */
  predicate IsCanonical(text: string) {
    && IsDuration(text)
    && IsLargest(Number(text[..|text| - 1]), UnitOf(text[|text| - 1]).value)
  }

  // ---------------------------------------------------------------- round trips

  lemma PlainText(text: string)
    requires |text| >= 1 && AllDigits(text[..|text| - 1]) && UnitOf(text[|text| - 1]).Some?
    ensures Lower(Strip(text)) == text
  {
    assert forall i :: 0 <= i < |text| ==> !IsSpace(text[i]) && LowerChar(text[i]) == text[i] by {
      assert forall i :: 0 <= i < |text| - 1 ==> text[i] == text[..|text| - 1][i];
    }
  }

  lemma WrittenReads(amount: nat, u: Unit)
    requires amount > 0
    ensures IsDuration(Written(amount, u)) && Parse(Written(amount, u)) == Some(amount * Millis(u))
  {
    var text := Written(amount, u);
    assert text[..|text| - 1] == Decimal(amount);
    PlainText(text);
    NumberOfDecimal(amount);
  }

  lemma Exact(ms: int, k: nat)
    requires ms > 0 && k > 0 && ms % k == 0
    ensures ms / k > 0 && ms / k * k == ms
  {
  }

  function PrintUnit(ms: int): Option<Unit> {
    if ms <= 0 then None
    else if ms % Millis(Day) == 0 then Some(Day)
    else if ms % Millis(Hour) == 0 then Some(Hour)
    else if ms % Millis(Minute) == 0 then Some(Minute)
    else if ms % Millis(Second) == 0 then Some(Second)
    else None
  }

  lemma PrintByUnit(ms: int)
    ensures match PrintUnit(ms)
            case None => Print(ms).None?
            case Some(u) => ms > 0 && ms % Millis(u) == 0 && Print(ms) == Some(Written(ms / Millis(u), u))
  {
  }

  /** The parser undoes the printer on everything that can be printed. */
  lemma PrintThenParse(ms: int)
    requires Print(ms).Some?
    ensures IsDuration(Print(ms).value) && Parse(Print(ms).value) == Some(ms)
  {
    PrintByUnit(ms);
    var u := PrintUnit(ms).value;
    Exact(ms, Millis(u));
    WrittenReads(ms / Millis(u), u);
  }

  lemma UnitPicked(amount: nat, u: Unit)
    requires amount > 0
    ensures PrintUnit(amount * Millis(u)).Some?
    ensures PrintUnit(amount * Millis(u)) == Some(u) <==> IsLargest(amount, u)
  {
    match u
    case Day => DayPicked(amount);
    case Hour => HourPicked(amount);
    case Minute => MinutePicked(amount);
    case Second => SecondPicked(amount);
  }

  lemma DayPicked(amount: nat)
    requires amount > 0
    ensures PrintUnit(amount * 86_400_000) == Some(Day)
  {
    var ms := amount * 86_400_000;
    assert ms % 86_400_000 == 0;
  }

  lemma HourPicked(amount: nat)
    requires amount > 0
    ensures PrintUnit(amount * 3_600_000) == if amount % 24 == 0 then Some(Day) else Some(Hour)
  {
    var ms := amount * 3_600_000;
    HoursInDay(amount);
    HourDivides(amount);
    if amount % 24 == 0 {
      assert PrintUnit(ms) == Some(Day);
    } else {
      assert PrintUnit(ms) == Some(Hour);
    }
  }

  lemma HourDivides(amount: nat)
    ensures (amount * 3_600_000) % 3_600_000 == 0
  {
  }

  lemma MinutePicked(amount: nat)
    requires amount > 0
    ensures PrintUnit(amount * 60_000).Some?
    ensures PrintUnit(amount * 60_000) == Some(Minute) <==> amount % 60 != 0
  {
    var ms := amount * 60_000;
    MinutesInHour(amount);
    if ms % 86_400_000 == 0 {
      DaysAreHours(ms);
    }
    assert ms % 60_000 == 0;
  }

  lemma SecondPicked(amount: nat)
    requires amount > 0
    ensures PrintUnit(amount * 1_000).Some?
    ensures PrintUnit(amount * 1_000) == Some(Second) <==> amount % 60 != 0
  {
    var ms := amount * 1_000;
    SecondsInMinute(amount);
    if ms % 86_400_000 == 0 {
      DaysAreHours(ms);
    }
    if ms % 3_600_000 == 0 {
      HoursAreMinutes(ms);
    }
    assert ms % 1_000 == 0;
  }

  lemma HoursInDay(amount: nat)
    ensures (amount * 3_600_000) % 86_400_000 == 0 <==> amount % 24 == 0
  {
    var q, r := amount / 24, amount % 24;
    assert amount * 3_600_000 == 86_400_000 * q + 3_600_000 * r;
  }

  lemma MinutesInHour(amount: nat)
    ensures (amount * 60_000) % 3_600_000 == 0 <==> amount % 60 == 0
  {
    var q, r := amount / 60, amount % 60;
    assert amount * 60_000 == 3_600_000 * q + 60_000 * r;
  }

  lemma SecondsInMinute(amount: nat)
    ensures (amount * 1_000) % 60_000 == 0 <==> amount % 60 == 0
  {
    var q, r := amount / 60, amount % 60;
    assert amount * 1_000 == 60_000 * q + 1_000 * r;
  }

  lemma DaysAreHours(ms: nat)
    requires ms % 86_400_000 == 0
    ensures ms % 3_600_000 == 0
  {
    var q := ms / 86_400_000;
    assert ms == 3_600_000 * (24 * q);
  }

  lemma HoursAreMinutes(ms: nat)
    requires ms % 3_600_000 == 0
    ensures ms % 60_000 == 0
  {
    var q := ms / 3_600_000;
    assert ms == 60_000 * (60 * q);
  }

  lemma WrittenUnit(amount: nat, u: Unit, amount': nat, u': Unit)
    requires u != u'
    ensures Written(amount, u) != Written(amount', u')
  {
    assert Written(amount, u)[|Written(amount, u)| - 1] == Letter(u);
    assert Written(amount', u')[|Written(amount', u')| - 1] == Letter(u');
  }

  lemma Cancels(amount: nat, u: Unit)
    ensures amount * Millis(u) / Millis(u) == amount
  {
    match u
    case Day => assert amount * 86_400_000 / 86_400_000 == amount;
    case Hour => assert amount * 3_600_000 / 3_600_000 == amount;
    case Minute => assert amount * 60_000 / 60_000 == amount;
    case Second => assert amount * 1_000 / 1_000 == amount;
  }

  /** The printer writes an amount of a unit back exactly when no larger unit divides it. */
  lemma LargestUnit(amount: nat, u: Unit)
    requires amount > 0
    ensures Print(amount * Millis(u)).Some?
    ensures Print(amount * Millis(u)) == Some(Written(amount, u)) <==> IsLargest(amount, u)
  {
    var ms := amount * Millis(u);
    UnitPicked(amount, u);
    PrintByUnit(ms);
    if PrintUnit(ms) == Some(u) {
      Cancels(amount, u);
    } else {
      WrittenUnit(amount, u, ms / Millis(PrintUnit(ms).value), PrintUnit(ms).value);
    }
  }

  /** The printer undoes the parser exactly on canonical intervals. */
  lemma ParseThenPrintIff(text: string)
    requires Parse(text).Some?
    ensures Parse(text).value > 0 && Print(Parse(text).value).Some?
    ensures Print(Parse(text).value) == Some(text) <==> IsCanonical(text)
  {
    var value := Lower(Strip(text));
    var amount, u := Number(value[..|value| - 1]), UnitOf(value[|value| - 1]).value;
    DecimalOfNumber(value[..|value| - 1]);
    assert value == Written(amount, u);
    LargestUnit(amount, u);
    if IsDuration(text) {
      PlainText(text);
    } else {
      PrintThenParse(amount * Millis(u));
    }
  }

  /** A number of milliseconds is printed as a given interval exactly when the interval means that number and
      is written in its largest unit. */
  lemma PrintsIff(ms: int, text: string)
    requires Parse(text).Some?
    ensures Print(ms) == Some(text) <==> ms == Parse(text).value && IsCanonical(text)
  {
    ParseThenPrintIff(text);
    if Print(ms).Some? {
      PrintThenParse(ms);
    }
  }
}
