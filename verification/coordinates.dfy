/** The latitude and longitude validators of the workspace form
    (admin-panel.component.ts, lines 41-42), written as predicates over the
    text the user typed, and the decimal value such text denotes. */
module Coordinates {
  import opened Text

  // ---------------------------------------------------------------------
  // Decimal text

  /** The text after an optional leading minus sign, as `^-?` reads it
      (a digit can never be '-', so the sign is taken whenever present). */
  function Unsigned(s: string): (u: string)
    ensures |u| <= |s|
  {
    if |s| > 0 && s[0] == '-' then s[1..] else s
  }

  /** The position of the first '.', or the length when there is none. */
  function FirstDot(u: string): (k: nat)
    ensures k <= |u|
    ensures forall i :: 0 <= i < k ==> u[i] != '.'
    ensures k < |u| ==> u[k] == '.'
    decreases |u|
  {
    if u == [] then 0 else if u[0] == '.' then 0 else 1 + FirstDot(u[1..])
  }

  /** `(\.[0-9]{1,10})?`: nothing, or a dot and one to ten digits. */
  predicate Fraction(f: string) {
    f == [] || (2 <= |f| <= 11 && f[0] == '.' && AllDigits(f[1..]))
  }

  /** The value of the digits after the decimal point. */
  function FracValue(ds: string): (v: real)
    requires AllDigits(ds)
    decreases |ds|
  {
    if ds == [] then 0.0 else (DigitValue(ds[0]) as real + FracValue(ds[1..])) / 10.0
  }

  function FractionValue(f: string): real
    requires Fraction(f)
  {
    if f == [] then 0.0 else FracValue(f[1..])
  }

  /** A plain decimal: an optional minus sign, one or more digits, and an
      optional fraction of one to ten digits. */
  predicate IsDecimal(s: string) {
    var u := Unsigned(s);
    var k := FirstDot(u);
    1 <= k && AllDigits(u[..k]) && Fraction(u[k..])
  }

  /** The number such text denotes. */
  function DecimalValue(s: string): real
    requires IsDecimal(s)
  {
    var u := Unsigned(s);
    var k := FirstDot(u);
    var magnitude := DigitsValue(u[..k]) as real + FractionValue(u[k..]);
    if |s| > 0 && s[0] == '-' then -magnitude else magnitude
  }

  lemma {:induction false} FracValueBounds(ds: string)
    requires AllDigits(ds)
    ensures 0.0 <= FracValue(ds) < 1.0
    decreases |ds|
  {
    if ds != [] {
      FracValueBounds(ds[1..]);
    }
  }

  /** A fraction is worth nothing exactly when all its digits are '0'. */
  lemma {:induction false} FracValueZero(ds: string)
    requires AllDigits(ds)
    ensures FracValue(ds) == 0.0 <==> forall i :: 0 <= i < |ds| ==> ds[i] == '0'
    decreases |ds|
  {
    if ds != [] {
      FracValueZero(ds[1..]);
      FracValueBounds(ds[1..]);
      if FracValue(ds) == 0.0 {
        assert ds[0] == '0';
      }
      if forall i :: 0 <= i < |ds| ==> ds[i] == '0' {
        assert forall i :: 0 <= i < |ds[1..]| ==> ds[1..][i] == ds[i + 1];
      } else {
        var i :| 0 <= i < |ds| && ds[i] != '0';
        if i > 0 { assert ds[1..][i - 1] == ds[i]; }
      }
    }
  }

  // ---------------------------------------------------------------------
  // The patterns as written

  /** `[0-8]?[0-9]|90`. */
  predicate LatitudeWhole(w: string) {
    || (|w| == 1 && IsDigit(w[0]))
    || (|w| == 2 && '0' <= w[0] <= '8' && IsDigit(w[1]))
    || w == "90"
  }

  /** `^-?([0-8]?[0-9]|90)(\.[0-9]{1,10})?$`: some split of the unsigned
      text into a whole part and a fraction. */
  predicate LatitudePattern(s: string) {
    var u := Unsigned(s);
    exists k :: 0 <= k <= |u| && LatitudeWhole(u[..k]) && Fraction(u[k..])
  }

  /** `(1[0-7][0-9])|([0-9]?[0-9])`. */
  predicate LongitudeWhole(w: string) {
    || (|w| == 3 && w[0] == '1' && '0' <= w[1] <= '7' && IsDigit(w[2]))
    || (|w| == 1 && IsDigit(w[0]))
    || (|w| == 2 && IsDigit(w[0]) && IsDigit(w[1]))
  }

  /** `^-?((1[0-7][0-9])|([0-9]?[0-9]))(\.[0-9]{1,10})?$`. */
  predicate LongitudePattern(s: string) {
    var u := Unsigned(s);
    exists k :: 0 <= k <= |u| && LongitudeWhole(u[..k]) && Fraction(u[k..])
  }

  /** A whole part has no '.', and a fraction starts with one, so the only
      split a pattern can use is at the first '.'. */
  lemma SplitIsFirstDot(u: string, k: nat)
    requires k <= |u| && AllDigits(u[..k]) && Fraction(u[k..])
    ensures k == FirstDot(u)
  {
  }

  lemma LatitudeWholeDigits(w: string)
    requires LatitudeWhole(w)
    ensures 1 <= |w| && AllDigits(w)
    ensures DigitsValue(w) <= 90 && (DigitsValue(w) == 90 <==> w == "90")
  {
    if |w| == 2 {
      DigitsValueTwo(w);
    }
  }

  lemma LongitudeWholeDigits(w: string)
    requires LongitudeWhole(w)
    ensures 1 <= |w| && AllDigits(w) && DigitsValue(w) <= 179
  {
    if |w| == 2 {
      DigitsValueTwo(w);
    } else if |w| == 3 {
      DigitsValueTwo(w[..2]);
      assert w[..2][0] == w[0] && w[..2][1] == w[1];
    }
  }

  lemma DigitsValueTwo(w: string)
    requires |w| == 2 && AllDigits(w)
    ensures DigitsValue(w) == DigitValue(w[0]) * 10 + DigitValue(w[1])
  {
    assert w[..1][..0] == [];
    assert DigitsValue(w[..1]) == DigitValue(w[0]);
  }

  /** What the latitude pattern accepts is a decimal of magnitude below 91:
      its whole part is at most 90, and the fraction is not checked
      against it. */
  lemma LatitudePatternRange(s: string)
    requires LatitudePattern(s)
    ensures IsDecimal(s) && -91.0 < DecimalValue(s) < 91.0
  {
    var u := Unsigned(s);
    var k :| 0 <= k <= |u| && LatitudeWhole(u[..k]) && Fraction(u[k..]);
    LatitudeWholeDigits(u[..k]);
    SplitIsFirstDot(u, k);
    if u[k..] != [] { FracValueBounds(u[k..][1..]); }
  }

  /** What the longitude pattern accepts is a decimal strictly between
      -180 and 180: 180 itself is refused. */
  lemma LongitudePatternRange(s: string)
    requires LongitudePattern(s)
    ensures IsDecimal(s) && -180.0 < DecimalValue(s) < 180.0
  {
    var u := Unsigned(s);
    var k :| 0 <= k <= |u| && LongitudeWhole(u[..k]) && Fraction(u[k..]);
    LongitudeWholeDigits(u[..k]);
    SplitIsFirstDot(u, k);
    if u[k..] != [] { FracValueBounds(u[k..][1..]); }
  }

  /** The concrete behaviour of the latitude pattern: "90.5", "90.9" and
      "-09" pass, "91", "1." and "-" do not. */
  lemma LatitudeExamples()
    ensures LatitudePattern("90.5") && DecimalValue("90.5") == 90.5
    ensures LatitudePattern("90.9") && LatitudePattern("-09")
    ensures !LatitudePattern("91") && !LatitudePattern("1.") && !LatitudePattern("-")
  {
    LatitudeTakesNinetyPointFive();
    LatitudeTakesNinetyPointNine();
    LatitudeTakesMinusNine();
    LatitudeRefusesNinetyOne();
    LatitudeRefusesDanglingDot();
  }

  lemma LatitudeTakesNinetyPointFive()
    ensures LatitudePattern("90.5") && DecimalValue("90.5") == 90.5
  {
    assert Unsigned("90.5") == "90.5";
    assert LatitudeWhole("90.5"[..2]) && Fraction("90.5"[2..]);
    assert "90.5"[..2][..1][..0] == [];
    assert FirstDot("90.5") == 2;
    assert FracValue("5") == 0.5;
  }

  lemma LatitudeTakesNinetyPointNine()
    ensures LatitudePattern("90.9") && DecimalValue("90.9") == 90.9
  {
    assert Unsigned("90.9") == "90.9";
    assert LatitudeWhole("90.9"[..2]) && Fraction("90.9"[2..]);
    assert "90.9"[..2][..1][..0] == [];
    assert FirstDot("90.9") == 2;
    assert FracValue("9") == 0.9;
  }

  lemma LatitudeTakesMinusNine()
    ensures LatitudePattern("-09")
  {
    assert LatitudeWhole(Unsigned("-09")[..2]) && Fraction(Unsigned("-09")[2..]);
  }

  lemma LatitudeRefusesNinetyOne()
    ensures !LatitudePattern("91")
  {
    forall k | 0 <= k <= 2 ensures !(LatitudeWhole("91"[..k]) && Fraction("91"[k..])) {
      if k == 1 {
        assert "91"[1..][0] == '1';
      } else if k == 2 {
        assert "91"[..2] == "91";
      }
    }
  }

  lemma LatitudeRefusesDanglingDot()
    ensures !LatitudePattern("1.")
  {
    forall k | 0 <= k <= 2 ensures !(LatitudeWhole("1."[..k]) && Fraction("1."[k..])) {
      if k == 1 {
        assert |"1."[1..]| == 1;
      } else if k == 2 {
        assert "1."[..2][1] == '.';
      }
    }
  }

  /** The longitude pattern refuses "180" and "180.0" but takes
      "179.9999999999". */
  lemma LongitudeExamples()
    ensures !LongitudePattern("180") && !LongitudePattern("180.0")
    ensures LongitudePattern("179.9999999999")
  {
    assert Unsigned("179.9999999999") == "179.9999999999";
    assert LongitudeWhole("179.9999999999"[..3]) && Fraction("179.9999999999"[3..]);
    LongitudeRefuses180("180");
    LongitudeRefuses180("180.0");
  }

  lemma LongitudeRefuses180(s: string)
    requires |s| >= 3 && s[..3] == "180"
    ensures !LongitudePattern(s)
  {
    assert s[0] == '1' && s[1] == '8' && s[2] == '0';
  }

  // ---------------------------------------------------------------------
  // The latitude pattern as intended

  /** Only zeros after the decimal point. */
  predicate ZeroFraction(f: string) {
    forall i :: 1 <= i < |f| ==> f[i] == '0'
  }

  /** `^-?([0-8]?[0-9](\.[0-9]{1,10})?|90(\.0{1,10})?)$`: as before, except
      that after "90" only zeros may follow the decimal point. */
  predicate LatitudePatternFixed(s: string) {
    var u := Unsigned(s);
    exists k :: 0 <= k <= |u| && LatitudeWhole(u[..k]) && Fraction(u[k..]) && (u[..k] == "90" ==> ZeroFraction(u[k..]))
  }

  /** A fraction lies in [0, 1), and is worth nothing exactly when only
      zeros follow its decimal point. */
  lemma FractionFacts(f: string)
    requires Fraction(f)
    ensures 0.0 <= FractionValue(f) < 1.0
    ensures ZeroFraction(f) <==> FractionValue(f) == 0.0
  {
    if f != [] {
      FracValueBounds(f[1..]);
      FracValueZero(f[1..]);
      assert forall i :: 0 <= i < |f[1..]| ==> f[1..][i] == f[i + 1];
    }
  }

  /** At a split the latitude pattern can use, the value lies in [-90, 90]
      exactly when a whole part of "90" has a zero fraction. */
  lemma LatitudeAtSplit(s: string, k: nat)
    requires k <= |Unsigned(s)|
    requires LatitudeWhole(Unsigned(s)[..k]) && Fraction(Unsigned(s)[k..])
    ensures k == FirstDot(Unsigned(s)) && IsDecimal(s)
    ensures -90.0 <= DecimalValue(s) <= 90.0
      <==> (Unsigned(s)[..k] == "90" ==> ZeroFraction(Unsigned(s)[k..]))
  {
    var u := Unsigned(s);
    LatitudeWholeDigits(u[..k]);
    SplitIsFirstDot(u, k);
    FractionFacts(u[k..]);
  }

  /** The corrected pattern accepts exactly the texts the original accepts
      whose value lies in [-90, 90], the range the form's error message and
      the payload attribute's bounds name. */
  lemma LatitudeFixedIffInRange(s: string)
    ensures LatitudePatternFixed(s) <==> LatitudePattern(s) && -90.0 <= DecimalValue(s) <= 90.0
  {
    var u := Unsigned(s);
    if LatitudePattern(s) {
      var k :| 0 <= k <= |u| && LatitudeWhole(u[..k]) && Fraction(u[k..]);
      LatitudeAtSplit(s, k);
      if LatitudePatternFixed(s) {
        var k' :| 0 <= k' <= |u| && LatitudeWhole(u[..k']) && Fraction(u[k'..]) && (u[..k'] == "90" ==> ZeroFraction(u[k'..]));
        LatitudeAtSplit(s, k');
      }
    }
  }
}
