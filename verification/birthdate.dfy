/** `formatBirthdate` (js/scripts.js:157-165) after the host's `Date` has done
    its work. Turning the ISO string into month, day and year depends on the
    host's date parser and time zone, so the model receives those calendar
    fields as a value and formats them exactly as the template literal does. */
module Birthdate {
  import opened Wrappers
  import opened Decimal

  /** What `getMonth()`, `getDate()` and `getFullYear()` return: the month is
      zero-based. `InvalidDate` is a `Date` whose getters all give `NaN`. */
  datatype CalendarDate = InvalidDate | LocalDate(month: int, day: int, fullYear: int)

  const Slash: char := '/'

  /** Glues the pieces back together with the separator between them. */
  function Join(parts: seq<string>, sep: char): string
  {
    if |parts| == 0 then ""
    else if |parts| == 1 then parts[0]
    else parts[0] + [sep] + Join(parts[1..], sep)
  }

  /** Cuts `s` at every occurrence of `sep`: the reference inverse used to
      read a formatted birthday back into its fields. */
  function Split(s: string, sep: char): (parts: seq<string>)
    ensures |parts| >= 1
    ensures Join(parts, sep) == s
    ensures forall i :: 0 <= i < |parts| ==> sep !in parts[i]
  {
    if |s| == 0 then [""]
    else if s[0] == sep then [""] + Split(s[1..], sep)
    else
      var rest := Split(s[1..], sep);
      [[s[0]] + rest[0]] + rest[1..]
  }

  /** A piece without the separator, followed by the separator, is cut off as
      the first field. */
  lemma {:induction false} SplitFirstField(a: string, sep: char, b: string)
    requires sep !in a
    ensures Split(a + [sep] + b, sep) == [a] + Split(b, sep)
  {
    if |a| == 0 {
      assert a + [sep] + b == [sep] + b;
      assert ([sep] + b)[1..] == b;
    } else {
      var s := a + [sep] + b;
      assert s[0] == a[0];
      assert s[1..] == a[1..] + [sep] + b;
      SplitFirstField(a[1..], sep, b);
      assert [a[0]] + a[1..] == a;
    }
  }

  /** A piece without the separator is a single field. */
  lemma {:induction false} SplitSingleField(a: string, sep: char)
    requires sep !in a
    ensures Split(a, sep) == [a]
  {
    if |a| > 0 {
      SplitSingleField(a[1..], sep);
      assert [a[0]] + a[1..] == a;
    }
  }

  /** Splitting the pieces glued with a separator none of them contains
      gives back the pieces. */
  lemma {:induction false} SplitJoin(parts: seq<string>, sep: char)
    requires |parts| >= 1
    requires forall i :: 0 <= i < |parts| ==> sep !in parts[i]
    ensures Split(Join(parts, sep), sep) == parts
  {
    if |parts| == 1 {
      SplitSingleField(parts[0], sep);
    } else {
      SplitFirstField(parts[0], sep, Join(parts[1..], sep));
      SplitJoin(parts[1..], sep);
      assert [parts[0]] + parts[1..] == parts;
    }
  }

  /** `${month + 1}/${day}/${fullYear}`: one-based month, no zero padding.
      An invalid date prints `NaN` in each of the three places. Read as a
      number, the text begins with the one-based month; an invalid date
      reads as `NaN`. */
  function FormatBirthdate(date: CalendarDate): (r: string)
    ensures date.LocalDate? ==> ParseInt(r) == Some(date.month + 1)
    ensures date.InvalidDate? ==> ParseInt(r) == None
  {
    match date
    case InvalidDate =>
      ParseIntNaNFields();
      Join(["NaN", "NaN", "NaN"], Slash)
    case LocalDate(month, day, year) =>
      ParseIntFirstField(month + 1, IntToDecimal(day), IntToDecimal(year));
      Join([IntToDecimal(month + 1), IntToDecimal(day), IntToDecimal(year)], Slash)
  }

  /** `parseInt` reads the first of three joined fields and stops at the
      slash after it. */
  lemma ParseIntFirstField(z: int, b: string, c: string)
    ensures ParseInt(Join([IntToDecimal(z), b, c], Slash)) == Some(z)
  {
    var parts := [IntToDecimal(z), b, c];
    var rest := [Slash] + Join([b, c], Slash);
    assert parts[1..] == [b, c];
    assert Join(parts, Slash) == IntToDecimal(z) + rest;
    ParseIntIntThen(z, rest);
  }

  /** Three `NaN` fields read as `NaN`. */
  lemma ParseIntNaNFields()
    ensures ParseInt(Join(["NaN", "NaN", "NaN"], Slash)) == None
  {
    var text := Join(["NaN", "NaN", "NaN"], Slash);
    assert text[0] == 'N';
    ParseIntLetter(text);
  }

  lemma DecimalHasNoSlash(z: int)
    ensures Slash !in IntToDecimal(z)
  {
  }

  /** A formatted birthday splits at its slashes into the three printed fields. */
  lemma FormatBirthdateFields(date: CalendarDate)
    requires date.LocalDate?
    ensures Split(FormatBirthdate(date), Slash)
         == [IntToDecimal(date.month + 1), IntToDecimal(date.day), IntToDecimal(date.fullYear)]
  {
    var parts := [IntToDecimal(date.month + 1), IntToDecimal(date.day), IntToDecimal(date.fullYear)];
    assert FormatBirthdate(date) == Join(parts, Slash);
    assert forall i :: 0 <= i < |parts| ==> Slash !in parts[i] by {
      DecimalHasNoSlash(date.month + 1);
      DecimalHasNoSlash(date.day);
      DecimalHasNoSlash(date.fullYear);
    }
    SplitJoin(parts, Slash);
  }

  /** Splitting a formatted birthday at the slashes and reading each field
      with `parseInt` gives back the one-based month, the day and the year. */
  lemma FormatBirthdateRoundTrip(date: CalendarDate)
    requires date.LocalDate?
    ensures |Split(FormatBirthdate(date), Slash)| == 3
    ensures ParseInt(Split(FormatBirthdate(date), Slash)[0]) == Some(date.month + 1)
    ensures ParseInt(Split(FormatBirthdate(date), Slash)[1]) == Some(date.day)
    ensures ParseInt(Split(FormatBirthdate(date), Slash)[2]) == Some(date.fullYear)
  {
    FormatBirthdateFields(date);
    ParseIntIntRoundTrip(date.month + 1);
    ParseIntIntRoundTrip(date.day);
    ParseIntIntRoundTrip(date.fullYear);
  }

  /** Neither the month nor the day is padded: January to September and
      days 1 to 9 print as one digit, so the output has the shape `M/D/YYYY`,
      not the `MM/DD/YYYY` the comment at js/scripts.js:161 announces. */
  lemma FormatBirthdateUnpadded(date: CalendarDate)
    requires date.LocalDate?
    ensures 0 <= date.month < 9 ==> |Split(FormatBirthdate(date), Slash)[0]| == 1
    ensures 0 <= date.day < 10 ==> |Split(FormatBirthdate(date), Slash)[1]| == 1
  {
    FormatBirthdateFields(date);
    if 0 <= date.month < 9 {
      assert |IntToDecimal(date.month + 1)| == 1;
    }
    if 0 <= date.day < 10 {
      assert |IntToDecimal(date.day)| == 1;
    }
  }

  /** An unparseable date prints as `NaN` in every field. */
  lemma FormatBirthdateInvalid()
    ensures Split(FormatBirthdate(InvalidDate), Slash) == ["NaN", "NaN", "NaN"]
  {
    assert Slash !in "NaN";
    SplitJoin(["NaN", "NaN", "NaN"], Slash);
  }
}
