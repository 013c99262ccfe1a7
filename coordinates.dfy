/** Reading and judging the latitude/longitude text of the geolocation
    search: a decimal-number reader in the two flavours the search uses
    (`parseFloat`, which reads the longest numeric prefix, and `Number`,
    which needs the whole text to be a number), the range check, the
    "at least three decimals" check and the order of the two warnings.

    Numbers follow the plain decimal grammar  sign? digits ('.' digits?)?
    or  sign? '.' digits, read as exact rationals; exponents, `Infinity`,
    hexadecimal forms, surrounding white space and floating-point rounding
    are not part of this model. */
module Coordinates {
  import opened Schema

  // ---------------------------------------------------------------------
  // Digits

  predicate IsDigit(c: char) { '0' <= c <= '9' }

  predicate AllDigits(s: string)
  {
    forall i :: 0 <= i < |s| ==> IsDigit(s[i])
  }

  function DigitValue(c: char): (d: nat)
    requires IsDigit(c)
    ensures d < 10
  {
    c as int - '0' as int
  }

  /** The value of a digit string read in base ten. */
  function DigitsValue(ds: string): (v: nat)
    requires AllDigits(ds)
    ensures v < Pow10(|ds|)
  {
    if ds == [] then 0
    else DigitsValue(ds[..|ds| - 1]) * 10 + DigitValue(ds[|ds| - 1])
  }

  function Pow10(n: nat): (p: nat)
    ensures p >= 1
  {
    if n == 0 then 1 else 10 * Pow10(n - 1)
  }

  /** The value of the digits after a decimal point: always in [0, 1). */
  function FractionValue(ds: string): (v: real)
    requires AllDigits(ds)
    ensures 0.0 <= v < 1.0
  {
    var num, den := DigitsValue(ds) as real, Pow10(|ds|) as real;
    RatioBelowOne(num, den);
    num / den
  }

  lemma RatioBelowOne(a: real, b: real)
    requires 0.0 <= a < b
    ensures 0.0 <= a / b < 1.0
  {
    assert a / b * b == a;
  }

  /** The digits the text begins with: all of them, up to the first
      character that is not a digit. */
  function DigitRun(u: string): (ds: string)
    ensures AllDigits(ds) && ds <= u
    ensures |ds| == |u| || !IsDigit(u[|ds|])
  {
    if u != [] && IsDigit(u[0]) then [u[0]] + DigitRun(u[1..]) else []
  }

  /** A digit string followed by a non-digit (or nothing) is exactly the
      run of leading digits. */
  lemma {:induction false} DigitRunOf(ds: string, rest: string)
    requires AllDigits(ds)
    requires rest == [] || !IsDigit(rest[0])
    ensures DigitRun(ds + rest) == ds
  {
    if ds == [] {
      assert ds + rest == rest;
    } else {
      assert (ds + rest)[1..] == ds[1..] + rest;
      DigitRunOf(ds[1..], rest);
      assert ds == [ds[0]] + ds[1..];
    }
  }

  // ---------------------------------------------------------------------
  // Numerals: the syntax the reader recognises

  /** A decimal numeral: an optional minus sign, the whole digits and, when
      a point is written, the fraction digits after it. */
  datatype Numeral = Numeral(negative: bool, whole: string, fraction: Option<string>)

  /** The numeral's text without its sign. */
  function Unsigned(n: Numeral): string
  {
    n.whole + match n.fraction case None => "" case Some(f) => "." + f
  }

  /** The numeral's text. */
  function Text(n: Numeral): string
  {
    (if n.negative then "-" else "") + Unsigned(n)
  }

  /** Digits only, and at least one of them. */
  predicate WellFormed(n: Numeral)
  {
    && AllDigits(n.whole)
    && (n.fraction.Some? ==> AllDigits(n.fraction.value))
    && (|n.whole| > 0 || (n.fraction.Some? && |n.fraction.value| > 0))
  }

  /** The exact value the numeral denotes. */
  function Value(n: Numeral): (r: real)
    requires WellFormed(n)
    ensures n.negative ==> r <= 0.0
    ensures !n.negative ==> r >= 0.0
    ensures var m := if n.negative then -r else r;
            DigitsValue(n.whole) as real <= m < DigitsValue(n.whole) as real + 1.0
  {
    var magnitude := DigitsValue(n.whole) as real +
      (match n.fraction case None => 0.0 case Some(f) => FractionValue(f));
    if n.negative then -magnitude else magnitude
  }

  // ---------------------------------------------------------------------
  // The number reader

  function SignLength(s: string): nat
  {
    if |s| > 0 && (s[0] == '+' || s[0] == '-') then 1 else 0
  }

  /** The text begins (after an optional sign) with a digit, or with a point
      followed by a digit. */
  predicate StartsWithNumber(s: string)
  {
    var k := SignLength(s);
    (k < |s| && IsDigit(s[k])) || (k + 1 < |s| && s[k] == '.' && IsDigit(s[k + 1]))
  }

  /** The longest prefix of an unsigned text in the decimal grammar: the
      leading digits and, when a point follows them, the point and the
      digits after it; at least one digit in all. */
  function ScanUnsigned(u: string): (r: Option<Numeral>)
    ensures r.None? <==> !((u != [] && IsDigit(u[0])) || (|u| > 1 && u[0] == '.' && IsDigit(u[1])))
    ensures r.Some? ==> WellFormed(r.value) && !r.value.negative && Unsigned(r.value) <= u
  {
    var whole := DigitRun(u);
    var after := u[|whole|..];
    assert u == whole + after;
    if after != [] && after[0] == '.' then
      var fraction := DigitRun(after[1..]);
      assert after == "." + after[1..];
      if whole == [] && fraction == [] then None
      else Some(Numeral(false, whole, Some(fraction)))
    else if whole == [] then None
    else Some(Numeral(false, whole, None))
  }

  /** The longest prefix of `s` in the decimal grammar; None when no prefix
      is a number. The sign, when written, is consumed as well. */
  function ParsePrefix(s: string): (r: Option<Numeral>)
    ensures r.None? <==> !StartsWithNumber(s)
    ensures r.Some? ==> WellFormed(r.value) && SignLength(s) + |Unsigned(r.value)| <= |s|
  {
    var k := SignLength(s);
    match ScanUnsigned(s[k..])
    case None => None
    case Some(n) => Some(n.(negative := k == 1 && s[0] == '-'))
  }

  /** `parseFloat(val)`: the value of the numeric prefix; None stands for
      NaN. */
  function ParseFloat(s: string): (r: Option<real>)
    ensures r.Some? <==> StartsWithNumber(s)
  {
    match ParsePrefix(s)
    case None => None
    case Some(n) => Some(Value(n))
  }

  /** `Number(val)`: the empty text is 0; any other text must be a number in
      full, or the result is NaN (None). */
  function NumberOf(s: string): (r: Option<real>)
    ensures s == "" ==> r == Some(0.0)
    ensures s != "" && r.Some? ==> ParseFloat(s) == r
  {
    if s == "" then Some(0.0)
    else
      match ParsePrefix(s)
      case None => None
      case Some(n) => if SignLength(s) + |Unsigned(n)| == |s| then Some(Value(n)) else None
  }

  /** The reader takes a numeral off the front of any text whose remainder
      cannot extend it: reading a numeral's text gives the numeral back. */
  lemma ParseNumeral(n: Numeral, rest: string)
    requires WellFormed(n)
    requires rest == [] || (!IsDigit(rest[0]) && (n.fraction.None? ==> rest[0] != '.'))
    ensures ParsePrefix(Text(n) + rest) == Some(n)
    ensures SignLength(Text(n) + rest) + |Unsigned(n)| == |Text(n)|
  {
    var sign := if n.negative then "-" else "";
    var u := Unsigned(n) + rest;
    var s := sign + u;
    assert Text(n) + rest == s;
    UnsignedStart(n);
    assert u[0] == Unsigned(n)[0];
    if n.negative {
      assert s[0] == '-';
      assert SignLength(s) == 1;
      assert s[1..] == u;
    } else {
      assert s == u;
      assert SignLength(s) == 0;
    }
    ScanUnsignedText(n, rest);
  }

  /** `Number` gives NaN for a numeral followed by anything that cannot
      extend it: the numeric prefix is not the whole text. */
  lemma NumberRejectsTrailing(n: Numeral, rest: string)
    requires WellFormed(n)
    requires rest != [] && !IsDigit(rest[0]) && (n.fraction.None? ==> rest[0] != '.')
    ensures NumberOf(Text(n) + rest) == None
  {
    ParseNumeral(n, rest);
  }

  /** An unsigned numeral's text begins with a digit or a point. */
  lemma UnsignedStart(n: Numeral)
    requires WellFormed(n)
    ensures Unsigned(n) != [] && (IsDigit(Unsigned(n)[0]) || Unsigned(n)[0] == '.')
  {
    if n.whole == [] {
      assert Unsigned(n)[0] == '.';
    } else {
      assert Unsigned(n)[0] == n.whole[0];
    }
  }

  lemma ScanUnsignedText(n: Numeral, rest: string)
    requires WellFormed(n)
    requires rest == [] || (!IsDigit(rest[0]) && (n.fraction.None? ==> rest[0] != '.'))
    ensures ScanUnsigned(Unsigned(n) + rest) == Some(n.(negative := false))
  {
    match n.fraction {
      case None =>
        assert Unsigned(n) == n.whole;
        ScanWhole(n.whole, rest);
      case Some(f) =>
        assert Unsigned(n) + rest == n.whole + "." + f + rest;
        ScanFraction(n.whole, f, rest);
    }
  }

  lemma ScanWhole(whole: string, rest: string)
    requires AllDigits(whole) && |whole| > 0
    requires rest == [] || (!IsDigit(rest[0]) && rest[0] != '.')
    ensures ScanUnsigned(whole + rest) == Some(Numeral(false, whole, None))
  {
    DigitRunOf(whole, rest);
    assert (whole + rest)[|whole|..] == rest;
  }

  lemma ScanFraction(whole: string, f: string, rest: string)
    requires AllDigits(whole) && AllDigits(f) && |whole| + |f| > 0
    requires rest == [] || !IsDigit(rest[0])
    ensures ScanUnsigned(whole + "." + f + rest) == Some(Numeral(false, whole, Some(f)))
  {
    var after := "." + f + rest;
    assert whole + "." + f + rest == whole + after;
    DigitRunOf(whole, after);
    assert (whole + after)[|whole|..] == after;
    assert after[1..] == f + rest;
    DigitRunOf(f, rest);
  }

  /** `Number` reads a numeral that makes up the whole text, and yields its
      value. */
  lemma NumberOfText(n: Numeral)
    requires WellFormed(n)
    ensures NumberOf(Text(n)) == Some(Value(n))
  {
    ParseNumeral(n, "");
    assert Text(n) + "" == Text(n);
  }

  /** Both readers give a numeral's value for its text. */
  lemma ReadsNumeral(n: Numeral, s: string, v: real)
    requires WellFormed(n) && s == Text(n) && Value(n) == v
    ensures NumberOf(s) == Some(v) && ParseFloat(s) == Some(v)
  {
    NumberOfText(n);
    UnsignedStart(n);
  }

  // The two checks of the search button

  datatype Axis = Latitude | Longitude

  /** The bound of the axis: latitudes lie in [-90, 90], longitudes in
      [-180, 180]. */
  function Limit(axis: Axis): real
  {
    match axis
    case Latitude => 90.0
    case Longitude => 180.0
  }

  /** `isValidCoordinate(val, type)`: the numeric prefix of the text exists
      and lies in the axis's range, bounds included. */
  function IsValidCoordinate(val: string, axis: Axis): (ok: bool)
    ensures ok <==> ParseFloat(val).Some? &&
                    -Limit(axis) <= ParseFloat(val).value <= Limit(axis)
  {
    match ParseFloat(val)
    case None => false
    case Some(num) =>
      if axis == Latitude && (num < -90.0 || num > 90.0) then false
      else if axis == Longitude && (num < -180.0 || num > 180.0) then false
      else true
  }

  /** A '.' at `i` immediately followed by a digit: where the pattern
      `\.(\d+)` can match. */
  predicate PointDigitAt(s: string, i: int)
  {
    0 <= i && i + 1 < |s| && s[i] == '.' && IsDigit(s[i + 1])
  }

  /** The leftmost match position at or after `from`. */
  function FindPointDigit(s: string, from: nat): (r: Option<nat>)
    requires from <= |s|
    ensures r.Some? ==> from <= r.value && PointDigitAt(s, r.value) &&
                        forall j :: from <= j < r.value ==> !PointDigitAt(s, j)
    ensures r.None? ==> forall j :: from <= j < |s| ==> !PointDigitAt(s, j)
    decreases |s| - from
  {
    if from == |s| then None
    else if PointDigitAt(s, from) then Some(from)
    else FindPointDigit(s, from + 1)
  }

  /** `i` is where the regular expression matches: the leftmost '.' that is
      followed by a digit. */
  predicate FirstPointDigit(s: string, i: int)
  {
    PointDigitAt(s, i) && forall j :: 0 <= j < i ==> !PointDigitAt(s, j)
  }

  predicate ThreeDigitsAfter(s: string, i: int)
  {
    0 <= i && i + 4 <= |s| && IsDigit(s[i + 1]) && IsDigit(s[i + 2]) && IsDigit(s[i + 3])
  }

  /** `hasThreeDecimals(val)`: the digit group captured after the leftmost
      '.' that is followed by a digit (the group is greedy, so it is the
      whole run of digits) has at least three digits. */
  function HasThreeDecimals(s: string): (r: bool)
    ensures r <==> exists i :: FirstPointDigit(s, i) && ThreeDigitsAfter(s, i)
  {
    match FindPointDigit(s, 0)
    case None => false
    case Some(i) =>
      var run := |DigitRun(s[i + 1..])|;
      if run >= 3 then
        assert FirstPointDigit(s, i) && ThreeDigitsAfter(s, i);
        true
      else
        assert run == |s[i + 1..]| || !IsDigit(s[i + 1..][run]);
        assert !ThreeDigitsAfter(s, i);
        assert forall j :: FirstPointDigit(s, j) ==> j == i;
        false
  }

  // ---------------------------------------------------------------------
  // The search button

  const InvalidValuesWarning: string := "Please enter valid latitude and longitude values."
  const PrecisionWarning: string := "Please enter at least 3 decimal places for more accurate results."

  /** What pressing "Search" comes to: a warning, or the pair of numbers the
      geolocation query is set to. */
  datatype Outcome<N> = Rejected(warning: string) | Accepted(lat: N, lon: N)

  /** `handleSearch` as written: the range check reads the numeric prefix
      (`parseFloat`) but the query is built with `Number`, which reads the
      whole text; None in the result stands for NaN. */
  function CheckCoordinatesAsWritten(lat: string, lon: string): (r: Outcome<Option<real>>)
    ensures r.Rejected? ==> r.warning == InvalidValuesWarning || r.warning == PrecisionWarning
    ensures r.Accepted? <==> IsValidCoordinate(lat, Latitude) && IsValidCoordinate(lon, Longitude) &&
                             HasThreeDecimals(lat) && HasThreeDecimals(lon)
    ensures !IsValidCoordinate(lat, Latitude) || !IsValidCoordinate(lon, Longitude) ==>
              r == Rejected(InvalidValuesWarning)
    ensures (IsValidCoordinate(lat, Latitude) && IsValidCoordinate(lon, Longitude) &&
             !(HasThreeDecimals(lat) && HasThreeDecimals(lon))) ==> r == Rejected(PrecisionWarning)
    ensures r.Accepted? ==> r.lat == NumberOf(lat) && r.lon == NumberOf(lon)
  {
    if !IsValidCoordinate(lat, Latitude) || !IsValidCoordinate(lon, Longitude) then
      Rejected(InvalidValuesWarning)
    else if !HasThreeDecimals(lat) || !HasThreeDecimals(lon) then
      Rejected(PrecisionWarning)
    else
      Accepted(NumberOf(lat), NumberOf(lon))
  }

  /** "40.712x" passes both checks, because its numeric prefix 40.712 is in
      range and has three decimals, yet `Number("40.712x")` is NaN: the
      query is submitted with a NaN latitude. */
  lemma AsWrittenSubmitsNaN()
    ensures CheckCoordinatesAsWritten("40.712x", "-74.006") == Accepted(None, Some(-74.006))
  {
    ReadsTrailingLetter();
    ReadsMinus74006();
    ThreeDecimalsCases();
  }

  lemma ThreeDecimalsCases()
    ensures HasThreeDecimals("40.712") && HasThreeDecimals("40.712x") && HasThreeDecimals("-74.006")
  {
    assert FirstPointDigit("40.712", 2) && ThreeDigitsAfter("40.712", 2);
    assert FirstPointDigit("40.712x", 2) && ThreeDigitsAfter("40.712x", 2);
    assert FirstPointDigit("-74.006", 3) && ThreeDigitsAfter("-74.006", 3);
  }

  lemma Reads40712()
    ensures NumberOf("40.712") == Some(40.712) && ParseFloat("40.712") == Some(40.712)
  {
    Value40712();
    ReadsNumeral(Numeral(false, "40", Some("712")), "40.712", 40.712);
  }

  lemma Value40712()
    ensures Value(Numeral(false, "40", Some("712"))) == 40.712
  {
    TwoDigits('4', '0');
    ThreeDigits('7', '1', '2');
    assert Pow10(3) == 1000;
    assert FractionValue("712") == 712.0 / 1000.0;
  }

  lemma Value74006()
    ensures Value(Numeral(true, "74", Some("006"))) == -74.006
  {
    TwoDigits('7', '4');
    ThreeDigits('0', '0', '6');
    assert Pow10(3) == 1000;
    assert FractionValue("006") == 6.0 / 1000.0;
  }

  lemma TwoDigits(a: char, b: char)
    requires IsDigit(a) && IsDigit(b)
    ensures DigitsValue([a, b]) == 10 * DigitValue(a) + DigitValue(b)
  {
    assert [a, b][..1] == [a];
    assert [a][..0] == [];
  }

  lemma ThreeDigits(a: char, b: char, c: char)
    requires IsDigit(a) && IsDigit(b) && IsDigit(c)
    ensures DigitsValue([a, b, c]) == 100 * DigitValue(a) + 10 * DigitValue(b) + DigitValue(c)
  {
    assert [a, b, c][..2] == [a, b];
    TwoDigits(a, b);
  }

  /** `parseFloat` stops at the letter, `Number` does not accept it. */
  lemma ReadsTrailingLetter()
    ensures ParseFloat("40.712x") == Some(40.712) && NumberOf("40.712x") == None
  {
    ParseNumeral(Numeral(false, "40", Some("712")), "x");
    assert Text(Numeral(false, "40", Some("712"))) + "x" == "40.712x";
    Value40712();
  }

  lemma ReadsMinus74006()
    ensures NumberOf("-74.006") == Some(-74.006) && ParseFloat("-74.006") == Some(-74.006)
  {
    Value74006();
    ReadsNumeral(Numeral(true, "74", Some("006")), "-74.006", -74.006);
  }

  /** The search check with the intended reading: after the two written
      checks, a text that is not a number as a whole is refused with the
      "valid values" warning, so that the value judged is the value
      submitted. */
  function CheckCoordinates(lat: string, lon: string): (r: Outcome<real>)
    ensures r.Rejected? ==> r.warning == InvalidValuesWarning || r.warning == PrecisionWarning
    ensures r == Rejected(PrecisionWarning) ==>
              IsValidCoordinate(lat, Latitude) && IsValidCoordinate(lon, Longitude)
    ensures !IsValidCoordinate(lat, Latitude) || !IsValidCoordinate(lon, Longitude) ==>
              r == Rejected(InvalidValuesWarning)
    ensures (IsValidCoordinate(lat, Latitude) && IsValidCoordinate(lon, Longitude) &&
             !(HasThreeDecimals(lat) && HasThreeDecimals(lon))) ==> r == Rejected(PrecisionWarning)
    ensures r == Rejected(PrecisionWarning) ==> !(HasThreeDecimals(lat) && HasThreeDecimals(lon))
    ensures (IsValidCoordinate(lat, Latitude) && IsValidCoordinate(lon, Longitude) &&
             HasThreeDecimals(lat) && HasThreeDecimals(lon) &&
             (NumberOf(lat).None? || NumberOf(lon).None?)) ==> r == Rejected(InvalidValuesWarning)
    ensures r.Accepted? ==>
              && lat != "" && lon != ""
              && NumberOf(lat) == Some(r.lat) && NumberOf(lon) == Some(r.lon)
              && -90.0 <= r.lat <= 90.0 && -180.0 <= r.lon <= 180.0
              && HasThreeDecimals(lat) && HasThreeDecimals(lon)
  {
    var a, b := NumberOf(lat), NumberOf(lon);
    if !IsValidCoordinate(lat, Latitude) || !IsValidCoordinate(lon, Longitude) then
      Rejected(InvalidValuesWarning)
    else if !HasThreeDecimals(lat) || !HasThreeDecimals(lon) then
      Rejected(PrecisionWarning)
    else if a.None? || b.None? then
      Rejected(InvalidValuesWarning)
    else
      Accepted(a.value, b.value)
  }

  /** The corrected check departs from the written one only where the
      written one would submit NaN: the same warning whenever the written
      one warns, the same numbers whenever it accepts, and a rejection only
      where `Number` of a text is NaN. */
  lemma CheckCoordinatesAgrees(lat: string, lon: string)
    ensures var written := CheckCoordinatesAsWritten(lat, lon);
            var fixed := CheckCoordinates(lat, lon);
            && (written.Rejected? ==> fixed == Rejected(written.warning))
            && (fixed.Accepted? ==> written == Accepted(Some(fixed.lat), Some(fixed.lon)))
            && (written.Accepted? && fixed.Rejected? ==>
                  (written.lat.None? || written.lon.None?) && fixed == Rejected(InvalidValuesWarning))
  {
  }

  // ---------------------------------------------------------------------
  // The documented cases

  /** "40.712" and "-74.006" are accepted as the query [40.712, -74.006]. */
  lemma AcceptsThreeDecimals()
    ensures CheckCoordinates("40.712", "-74.006") == Accepted(40.712, -74.006)
  {
    Reads40712();
    ReadsMinus74006();
    ThreeDecimalsCases();
  }

  /** "40.712x" passes both written checks, but `Number` cannot read it:
      the corrected check refuses it with the "valid values" warning. */
  lemma RejectsTrailingLetter()
    ensures CheckCoordinates("40.712x", "-74.006") == Rejected(InvalidValuesWarning)
  {
    ReadsTrailingLetter();
    ReadsMinus74006();
    ThreeDecimalsCases();
  }

  /** "40.71" and "-74.00" are in range but have two decimals: both checks
      give the precision warning. */
  lemma PrecisionWarningCase()
    ensures CheckCoordinates("40.71", "-74.00") == Rejected(PrecisionWarning)
    ensures CheckCoordinatesAsWritten("40.71", "-74.00") == Rejected(PrecisionWarning)
  {
    Reads4071();
    ReadsMinus7400();
    PrecisionCases();
  }

  lemma Reads4071()
    ensures ParseFloat("40.71") == Some(40.71)
  {
    TwoDigits('4', '0');
    TwoDigits('7', '1');
    assert Pow10(2) == 100;
    assert FractionValue("71") == 71.0 / 100.0;
    assert Value(Numeral(false, "40", Some("71"))) == 40.71;
    ReadsNumeral(Numeral(false, "40", Some("71")), "40.71", 40.71);
  }

  lemma ReadsMinus7400()
    ensures ParseFloat("-74.00") == Some(-74.0)
  {
    TwoDigits('7', '4');
    TwoDigits('0', '0');
    assert Pow10(2) == 100;
    assert FractionValue("00") == 0.0;
    assert Value(Numeral(true, "74", Some("00"))) == -74.0;
    ReadsNumeral(Numeral(true, "74", Some("00")), "-74.00", -74.0);
  }

  /** A latitude of 100 is out of range, and so is a longitude of -200,
      while the bounds themselves are in range. */
  lemma RangeCases()
    ensures !IsValidCoordinate("100", Latitude)
    ensures !IsValidCoordinate("-200", Longitude)
    ensures IsValidCoordinate("90", Latitude) && IsValidCoordinate("-180", Longitude)
  {
    Reads100();
    ReadsMinus200();
    Reads90();
    ReadsMinus180();
  }

  lemma Reads100()
    ensures ParseFloat("100") == Some(100.0)
  {
    ThreeDigits('1', '0', '0');
    ReadsNumeral(Numeral(false, "100", None), "100", 100.0);
  }

  lemma ReadsMinus200()
    ensures ParseFloat("-200") == Some(-200.0)
  {
    ThreeDigits('2', '0', '0');
    ReadsNumeral(Numeral(true, "200", None), "-200", -200.0);
  }

  lemma Reads90()
    ensures ParseFloat("90") == Some(90.0)
  {
    TwoDigits('9', '0');
    ReadsNumeral(Numeral(false, "90", None), "90", 90.0);
  }

  lemma ReadsMinus180()
    ensures ParseFloat("-180") == Some(-180.0)
  {
    ThreeDigits('1', '8', '0');
    ReadsNumeral(Numeral(true, "180", None), "-180", -180.0);
  }

  /** Two decimals are too few, trailing zeros included; only the digits
      after the first point that starts a fraction count. */
  lemma PrecisionCases()
    ensures !HasThreeDecimals("40.71")
    ensures !HasThreeDecimals("-74.00")
    ensures HasThreeDecimals("40.712")
    ensures !HasThreeDecimals("1.5.123")
  {
    assert FirstPointDigit("40.71", 2) && !ThreeDigitsAfter("40.71", 2);
    assert FirstPointDigit("-74.00", 3) && !ThreeDigitsAfter("-74.00", 3);
    assert FirstPointDigit("40.712", 2) && ThreeDigitsAfter("40.712", 2);
    assert FirstPointDigit("1.5.123", 1) && !ThreeDigitsAfter("1.5.123", 1);
  }

  /** Text that fails both checks gets the range warning. */
  lemma RangeWarningFirst()
    ensures CheckCoordinates("100", "-74.123") == Rejected(InvalidValuesWarning)
    ensures CheckCoordinates("40.7", "-200") == Rejected(InvalidValuesWarning)
  {
    RangeCases();
  }
}
