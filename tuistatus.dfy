/** The status the view reports to the status bar, and its position
    indicator "current/total" with a one-based current line. */
module TuiStatuses {
  import opened Prelude

  /** Equality on this datatype is field-wise, as the derived equality is. */
  datatype TuiStatus = TuiStatus(totalLines: nat, currentLineIdx: nat)

  /** The derived default: no lines, first line selected. */
  const DEFAULT_STATUS: TuiStatus := TuiStatus(0, 0)

  predicate IsDigit(c: char)
  {
    '0' <= c <= '9'
  }

  predicate AllDigits(s: string)
  {
    forall i :: 0 <= i < |s| ==> IsDigit(s[i])
  }

  function DigitChar(d: nat): (c: char)
    requires d < 10
    ensures IsDigit(c) && c as int - '0' as int == d
  {
    ('0' as int + d) as char
  }

  /** The decimal text of `n` as `{}` formats a `usize`: digits only, no
      leading zero except for 0 itself. */
  function Decimal(n: nat): (r: string)
    ensures |r| >= 1 && AllDigits(r)
    ensures r[0] == '0' ==> n == 0
    decreases n
  {
    if n < 10 then [DigitChar(n)] else Decimal(n / 10) + [DigitChar(n % 10)]
  }

  /** The value of a string of decimal digits. */
  function ParseDecimal(s: string): nat
    requires AllDigits(s)
    decreases |s|
  {
    if s == [] then 0 else ParseDecimal(s[..|s| - 1]) * 10 + (s[|s| - 1] as int - '0' as int)
  }

  /** Reading the decimal text back gives the number. */
  lemma {:induction false} DecimalRoundTrip(n: nat)
    ensures ParseDecimal(Decimal(n)) == n
    decreases n
  {
    if n >= 10 {
      DecimalRoundTrip(n / 10);
      var r := Decimal(n);
      assert r[..|r| - 1] == Decimal(n / 10);
    }
  }

  /** `position_indicator_to_string`: the one-based current line (its `+ 1`
      saturating at the largest `usize`), a slash, and the total. */
  function PositionIndicator(status: TuiStatus): (r: string)
    ensures 3 <= |r|
    ensures |Decimal(SatAdd(status.currentLineIdx, 1))| < |r| && r[|Decimal(SatAdd(status.currentLineIdx, 1))|] == '/'
  {
    Decimal(SatAdd(status.currentLineIdx, 1)) + "/" + Decimal(status.totalLines)
  }

  /** The indicator has exactly one slash, right after the shown line
      number, and the total after it. */
  lemma IndicatorLayout(status: TuiStatus)
    ensures var r, shown := PositionIndicator(status), Decimal(SatAdd(status.currentLineIdx, 1));
            |r| == |shown| + 1 + |Decimal(status.totalLines)| &&
            r[..|shown|] == shown && r[|shown| + 1..] == Decimal(status.totalLines) &&
            forall i :: 0 <= i < |r| ==> (r[i] == '/' <==> i == |shown|)
  {
    var shown, total := Decimal(SatAdd(status.currentLineIdx, 1)), Decimal(status.totalLines);
    var r := PositionIndicator(status);
    assert r == shown + ['/'] + total;
    forall i | 0 <= i < |r|
      ensures r[i] == '/' <==> i == |shown|
    {
      if i < |shown| {
        assert r[i] == shown[i] && IsDigit(shown[i]);
      } else if i > |shown| {
        assert r[i] == total[i - |shown| - 1] && IsDigit(total[i - |shown| - 1]);
      }
    }
  }

  /** The default status renders as "1/0". */
  lemma DefaultIndicator()
    ensures PositionIndicator(DEFAULT_STATUS) == "1/0"
  {
    assert Decimal(1) == "1";
    assert Decimal(0) == "0";
  }

  /** The `+ 1` saturates: the last two possible indices show the same line number. */
  lemma IndicatorSaturates(total: nat)
    ensures PositionIndicator(TuiStatus(total, USIZE_MAX)) == PositionIndicator(TuiStatus(total, USIZE_MAX - 1))
  {
  }

  /** Below the saturation point the indicator determines the status: two
      statuses with the same indicator are equal. */
  lemma IndicatorDeterminesStatus(a: TuiStatus, b: TuiStatus)
    requires a.currentLineIdx < USIZE_MAX && b.currentLineIdx < USIZE_MAX
    requires PositionIndicator(a) == PositionIndicator(b)
    ensures a == b
  {
    var ra, rb := PositionIndicator(a), PositionIndicator(b);
    var sa, sb := Decimal(a.currentLineIdx + 1), Decimal(b.currentLineIdx + 1);
    IndicatorLayout(a);
    IndicatorLayout(b);
    // the slash sits right after the shown line number in both
    assert ra[|sa|] == '/';
    assert |sa| == |sb|;
    assert sa == ra[..|sa|] == rb[..|sb|] == sb;
    assert Decimal(a.totalLines) == ra[|sa| + 1..] == rb[|sb| + 1..] == Decimal(b.totalLines);
    DecimalRoundTrip(a.currentLineIdx + 1);
    DecimalRoundTrip(b.currentLineIdx + 1);
    DecimalRoundTrip(a.totalLines);
    DecimalRoundTrip(b.totalLines);
  }
}
