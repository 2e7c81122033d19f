/** The template naming convention shared by the three drivers:
    `"travis-#{desc}-#{Time.now.utc.strftime('%Y-%m-%d-%H-%M')}"`.
    The clock is an input: the caller passes the UTC time it read. */
module Timestamps {
  import opened Wrappers

  /** A UTC wall-clock time to the minute. */
  datatype UtcTime = UtcTime(year: int, month: int, day: int, hour: int, minute: int)

  /** The ranges `Time#utc` produces (days are not checked against months,
      since formatting does not depend on it); years are held to four digits. */
  predicate Valid(t: UtcTime) {
    0 <= t.year <= 9999 && 1 <= t.month <= 12 && 1 <= t.day <= 31 &&
    0 <= t.hour <= 23 && 0 <= t.minute <= 59
  }

  predicate IsDigit(c: char) {
    '0' <= c <= '9'
  }

  function Digit(n: int): (c: char)
    requires 0 <= n <= 9
    ensures IsDigit(c)
  {
    (('0' as int) + n) as char
  }

  function DigitValue(c: char): int
    requires IsDigit(c)
  {
    (c as int) - ('0' as int)
  }

  /** `n` as two zero-padded decimal digits (`%m`, `%d`, `%H`, `%M`). */
  function Pad2(n: int): (r: string)
    requires 0 <= n <= 99
  {
    [Digit(n / 10), Digit(n % 10)]
  }

  /** `n` as four zero-padded decimal digits (`%Y` for years below 10000). */
  function Pad4(n: int): (r: string)
    requires 0 <= n <= 9999
  {
    Pad2(n / 100) + Pad2(n % 100)
  }

  /** `strftime('%Y-%m-%d-%H-%M')`. */
  function Format(t: UtcTime): (r: string)
    requires Valid(t)
  {
    Pad4(t.year) + "-" + Pad2(t.month) + "-" + Pad2(t.day) + "-" + Pad2(t.hour) + "-" + Pad2(t.minute)
  }

  /** Sixteen characters: digits, with dashes at offsets 4, 7, 10 and 13. */
  predicate WellFormed(s: string) {
    |s| == 16 &&
    forall k | 0 <= k < 16 :: if k in {4, 7, 10, 13} then s[k] == '-' else IsDigit(s[k])
  }

  function Number(s: string): int
    requires forall k | 0 <= k < |s| :: IsDigit(s[k])
    decreases |s|
  {
    if s == [] then 0 else Number(s[..|s| - 1]) * 10 + DigitValue(s[|s| - 1])
  }

  /** Read a formatted timestamp back. */
  function Parse(s: string): Option<UtcTime> {
    if WellFormed(s) then
      Some(UtcTime(Number(s[0..4]), Number(s[5..7]), Number(s[8..10]), Number(s[11..13]), Number(s[14..16])))
    else None
  }

  lemma Pad2Number(n: int)
    requires 0 <= n <= 99
    ensures Number(Pad2(n)) == n
  {
    var s := Pad2(n);
    assert s[..1] == [s[0]];
    assert Number(s[..1]) == DigitValue(s[0]);
  }

  lemma Pad4Number(n: int)
    requires 0 <= n <= 9999
    ensures Number(Pad4(n)) == n
  {
    var s := Pad4(n);
    var hi, lo := Pad2(n / 100), Pad2(n % 100);
    assert s[..3] == hi + [lo[0]];
    assert s[..3][..2] == hi;
    Pad2Number(n / 100);
    assert Number(s[..3]) == (n / 100) * 10 + DigitValue(lo[0]);
    assert Number(s) == Number(s[..3]) * 10 + DigitValue(lo[1]);
  }

  /** The timestamp is always sixteen characters of the `YYYY-mm-dd-HH-MM` shape. */
  lemma FormatWellFormed(t: UtcTime)
    requires Valid(t)
    ensures WellFormed(Format(t))
  {
  }

  /** Formatting loses nothing: the time can be read back from its text. */
  lemma FormatParse(t: UtcTime)
    requires Valid(t)
    ensures Parse(Format(t)) == Some(t)
  {
    var s := Format(t);
    FormatWellFormed(t);
    assert s[0..4] == Pad4(t.year);
    assert s[5..7] == Pad2(t.month);
    assert s[8..10] == Pad2(t.day);
    assert s[11..13] == Pad2(t.hour);
    assert s[14..16] == Pad2(t.minute);
    Pad4Number(t.year);
    Pad2Number(t.month);
    Pad2Number(t.day);
    Pad2Number(t.hour);
    Pad2Number(t.minute);
  }

  /** `"travis-#{desc}-#{timestamp}"`. */
  function TemplateName(desc: string, t: UtcTime): (r: string)
    requires Valid(t)
  {
    "travis-" + desc + "-" + Format(t)
  }

  /** A template name carries the `travis-` prefix, and both the description
      and the time can be recovered from it. */
  lemma TemplateNameParts(desc: string, t: UtcTime)
    requires Valid(t)
    ensures var n := TemplateName(desc, t);
      && "travis-" <= n
      && |n| == 7 + |desc| + 17
      && n[7..|n| - 17] == desc
      && n[|n| - 17] == '-'
      && Parse(n[|n| - 16..]) == Some(t)
  {
    var n := TemplateName(desc, t);
    assert n[|n| - 16..] == Format(t);
    FormatParse(t);
  }

  /** Different descriptions or times never produce the same name. */
  lemma TemplateNameInjective(d1: string, t1: UtcTime, d2: string, t2: UtcTime)
    requires Valid(t1) && Valid(t2)
    requires TemplateName(d1, t1) == TemplateName(d2, t2)
    ensures d1 == d2 && t1 == t2
  {
    TemplateNameParts(d1, t1);
    TemplateNameParts(d2, t2);
  }
}
