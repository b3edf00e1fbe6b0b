/**
 * The maximum-power field of a configuration line. `usb-devices` reports
 * the bus current in milliamps (`MxPwr=224mA`); the monitor shows the power
 * drawn at 5 V in watts with two decimals (`f"{watts:.2f}"`, where
 * `watts = mA / 1000 * 5`). A value in watts with two decimals is a whole
 * number of hundredths of a watt, and that number is half the current in
 * milliamps.
 */
module Power {
  import opened Wrappers
  import opened Text

  /**
   * Hundredths of a watt drawn at 5 V by `mA` milliamps. Exact for an even
   * current; for an odd one the exact value ends in a half, rounded up here.
   */
  function Hundredths(mA: nat): (h: nat)
    ensures 2 * h == mA || 2 * h == mA + 1
    ensures mA % 2 == 0 ==> 2 * h == mA
  {
    (mA + 1) / 2
  }

  /** The `.2f` text of `h` hundredths: integer part, a point, two digits. */
  function FormatFixed2(h: nat): (t: string)
    ensures |t| >= 4 && t[|t| - 3] == '.'
  {
    DecimalString(h / 100) + "." + [DigitChar(h / 10 % 10), DigitChar(h % 10)]
  }

  /** Reads back text of the form `<digits>.<digit><digit>` as hundredths. */
  function ParseFixed2(t: string): (r: Option<nat>)
    ensures r.Some? ==> |t| >= 4 && t[|t| - 3] == '.'
  {
    if |t| >= 4 && t[|t| - 3] == '.' && IsDigits(t[..|t| - 3]) && AllDigits(t[|t| - 2..]) then
      Some(DigitsValue(t[..|t| - 3]) * 100 + DigitsValue(t[|t| - 2..]))
    else None
  }

  lemma TwoDigitsValue(a: nat, b: nat)
    requires a < 10 && b < 10
    ensures DigitsValue([DigitChar(a), DigitChar(b)]) == a * 10 + b
  {
    var fr := [DigitChar(a), DigitChar(b)];
    var hd := [DigitChar(a)];
    assert fr[..1] == hd && hd[..0] == [];
    assert DigitsValue(hd) == a;
    assert DigitsValue(fr) == DigitsValue(hd) * 10 + DigitValue(DigitChar(b));
  }

  /** The two-decimal text loses nothing: it reads back as the same amount. */
  lemma ParseFormatFixed2(h: nat)
    ensures ParseFixed2(FormatFixed2(h)) == Some(h)
  {
    var t := FormatFixed2(h);
    var ip := DecimalString(h / 100);
    var fr := [DigitChar(h / 10 % 10), DigitChar(h % 10)];
    assert t[..|t| - 3] == ip;
    assert t[|t| - 2..] == fr;
    DecimalRoundTrip(h / 100);
    TwoDigitsValue(h / 10 % 10, h % 10);
    assert h / 10 / 10 == h / 100;
  }

  /** Different amounts are shown as different texts. */
  lemma FormatFixed2Injective(h1: nat, h2: nat)
    ensures FormatFixed2(h1) == FormatFixed2(h2) <==> h1 == h2
  {
    ParseFormatFixed2(h1);
    ParseFormatFixed2(h2);
  }

  /** The `max_power` text for the milliamp digits of `MxPwr=<digits>mA`. */
  function MaxPowerText(digits: string): (t: string)
    requires IsDigits(digits)
  {
    FormatFixed2(Hundredths(DigitsValue(digits)))
  }

  /** `MaxPowerText` reads back as half the current in milliamps, rounded up. */
  lemma MaxPowerTextValue(digits: string)
    requires IsDigits(digits)
    ensures var h := ParseFixed2(MaxPowerText(digits));
      h.Some? && (2 * h.value == DigitsValue(digits) || 2 * h.value == DigitsValue(digits) + 1)
  {
    ParseFormatFixed2(Hundredths(DigitsValue(digits)));
  }

  /** The shown power is `0.00` exactly when the current is zero milliamps. */
  lemma MaxPowerTextZero(digits: string)
    requires IsDigits(digits)
    ensures MaxPowerText(digits) == "0.00" <==> DigitsValue(digits) == 0
  {
    assert FormatFixed2(0) == "0.00";
    FormatFixed2Injective(Hundredths(DigitsValue(digits)), 0);
  }

  /** A 224 mA configuration draws 1.12 W. */
  lemma MaxPowerText224()
    ensures MaxPowerText("224") == "1.12"
  {
    assert DigitsValue("224") == 224 by {
      assert "224"[..2] == "22" && "22"[..1] == "2";
    }
  }
}
