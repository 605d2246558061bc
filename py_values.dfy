/** The field values a table reader hands to the migration scripts, as a closed set
    of kinds, with the two Python behaviours the scripts rely on: `str(value)` and
    truthiness (`not value`). */
module PyValues {
  import opened Numerals

  /** A calendar date with a four-digit year. */
  type Year = y: int | 1000 <= y <= 9999 witness 1000
  type Month = m: int | 1 <= m <= 12 witness 1
  type Day = d: int | 1 <= d <= 31 witness 1

  datatype CalendarDate = CalendarDate(year: Year, month: Month, day: Day)

  /** A field value as the table reader yields it. */
  datatype Value =
    | Absent                    // None
    | Text(s: string)           // str
    | Int(i: int)               // int
    | Bool(b: bool)             // bool, a subclass of int in Python
    | Float(repr: string)       // float, carried as the text `str()` gives for it
    | Date(date: CalendarDate)  // datetime.date
    | Other(repr: string)       // any other type, carried as the text `str()` gives for it

  /** `YYYY-MM-DD`: both `d.strftime('%Y-%m-%d')` and `str(d)` for a four-digit year. */
  function IsoDate(d: CalendarDate): string
  {
    PadDigits(d.year, 4) + "-" + PadDigits(d.month, 2) + "-" + PadDigits(d.day, 2)
  }

  /** The ISO text of a date is ten characters, dashes at 4 and 7, and its three
      digit groups read back as the year, the month and the day. */
  lemma IsoDateRoundTrip(d: CalendarDate)
    ensures var s := IsoDate(d);
      && |s| == 10 && s[4] == '-' && s[7] == '-'
      && AllDigits(s[..4]) && AllDigits(s[5..7]) && AllDigits(s[8..])
      && DigitsValue(s[..4]) == d.year
      && DigitsValue(s[5..7]) == d.month
      && DigitsValue(s[8..]) == d.day
  {
    var s := IsoDate(d);
    assert s[..4] == PadDigits(d.year, 4);
    assert s[5..7] == PadDigits(d.month, 2);
    assert s[8..] == PadDigits(d.day, 2);
    PadDigitsValue(d.year, 4);
    PadDigitsValue(d.month, 2);
    PadDigitsValue(d.day, 2);
  }

  /** Python's `str(value)`. */
  function Str(v: Value): string
  {
    match v
    case Absent => "None"
    case Text(s) => s
    case Int(i) => IntToString(i)
    case Bool(b) => if b then "True" else "False"
    case Float(r) => r
    case Date(d) => IsoDate(d)
    case Other(r) => r
  }

  /** `not value` in Python. Other kinds are taken to be truthy. */
  predicate Falsy(v: Value)
  {
    match v
    case Absent => true
    case Text(s) => s == ""
    case Int(i) => i == 0
    case Bool(b) => !b
    case Float(r) => r == "0.0" || r == "-0.0"
    case Date(_) => false
    case Other(_) => false
  }
}
