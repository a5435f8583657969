/**
 * The case form's phone formatter, run on every input event of the phone
 * field. It keeps only the digits; without a leading `+` in what was typed,
 * a national number's leading `0` becomes the Indonesian country code 62
 * (ITU-T E.164); a number that then starts with 62 is shown as `+62 ` and
 * the rest of its digits.
 */
module PhoneFormat {

  import opened Text

  const CountryCode := "62"
  const Prefix := "+62 "

  /** The value the formatter leaves in the field, by case. */
  function FormatPhone(raw: string): string {
    var d := Digits(raw);
    if StartsWith(d, CountryCode) then Prefix + d[2..]
    else if !StartsWith(raw, "+") && StartsWith(d, "0") then Prefix + d[1..]
    else d
  }

  /** `formatPhoneNumber`: the local value is rewritten step by step. */
  method FormatPhoneNumber(raw: string) returns (value: string)
    ensures value == FormatPhone(raw)
  {
    value := Digits(raw);
    if |value| > 0 && !StartsWith(value, "62") && !StartsWith(raw, "+") {
      if StartsWith(value, "0") {
        value := "62" + value[1..];
      }
    }
    if StartsWith(value, "62") {
      value := "+62 " + value[2..];
    }
  }

  /** Always either a digit string or `+62 ` followed by digits only. */
  lemma {:induction false} FormatShape(raw: string)
    ensures var r := FormatPhone(raw);
      AllDigits(r) || (StartsWith(r, Prefix) && AllDigits(r[|Prefix|..]))
  {
    DigitsAreDigits(raw);
    var d := Digits(raw);
    assert |d| >= 1 ==> StartsWith(Prefix + d[1..], Prefix) && (Prefix + d[1..])[|Prefix|..] == d[1..];
    assert |d| >= 2 ==> StartsWith(Prefix + d[2..], Prefix) && (Prefix + d[2..])[|Prefix|..] == d[2..];
  }

  /** A national number typed without `+`: its leading `0` becomes the country code. */
  lemma NationalZeroBecomesCountryCode(raw: string)
    requires !StartsWith(raw, "+") && StartsWith(Digits(raw), "0")
    ensures FormatPhone(raw) == Prefix + Digits(raw)[1..]
  {
    assert Digits(raw)[..1][0] == '0';
  }

  /** With a `+` typed first and no 62 after it, only the digits remain, a leading `0` included. */
  lemma PlusKeepsDigits(raw: string)
    requires StartsWith(raw, "+") && !StartsWith(Digits(raw), CountryCode)
    ensures FormatPhone(raw) == Digits(raw)
  {
  }

  /** Digits starting with 62 are shown with the prefix, whether or not a `+` was typed. */
  lemma CountryCodeGetsPrefix(raw: string)
    requires StartsWith(Digits(raw), CountryCode)
    ensures FormatPhone(raw) == Prefix + Digits(raw)[2..]
  {
  }

  /** The digits of a formatted number are `62` and the rest. */
  lemma {:induction false} DigitsOfPrefixed(ds: string)
    requires AllDigits(ds)
    ensures Digits(Prefix + ds) == CountryCode + ds
  {
    DigitsAppend(Prefix, ds);
    DigitsOfDigits(ds);
  }

  /** No double prefix: a number already shown as `+62 ` and digits is left as it is. */
  lemma {:induction false} NoDoublePrefix(ds: string)
    requires AllDigits(ds)
    ensures FormatPhone(Prefix + ds) == Prefix + ds
  {
    DigitsOfPrefixed(ds);
    assert (CountryCode + ds)[2..] == ds;
  }

  /** Formatting again changes the value exactly when the first pass left a bare
      digit string that starts with `0` (which happens only to a `+0...` input). */
  lemma {:induction false} ReformatStableIff(raw: string)
    ensures FormatPhone(FormatPhone(raw)) == FormatPhone(raw) <==> !StartsWith(FormatPhone(raw), "0")
  {
    var r := FormatPhone(raw);
    FormatShape(raw);
    if StartsWith(r, Prefix) {
      NoDoublePrefix(r[|Prefix|..]);
      assert Prefix + r[|Prefix|..] == r;
    } else {
      assert AllDigits(r);
      DigitsOfDigits(r);
      assert !StartsWith(r, CountryCode);
      assert !StartsWith(r, "+");
      if StartsWith(r, "0") {
        assert FormatPhone(r) == Prefix + r[1..];
        assert FormatPhone(r)[0] == '+' != r[0];
      }
    }
  }

  /** Starting `+0` is the one way to get a bare leading zero out of the formatter. */
  lemma {:induction false} LeadingZeroOnlyAfterPlus(raw: string)
    ensures StartsWith(FormatPhone(raw), "0") <==> StartsWith(raw, "+") && StartsWith(Digits(raw), "0")
  {
    var d := Digits(raw);
    var r := FormatPhone(raw);
    if StartsWith(r, Prefix) {
      assert r[..1][0] == '+';
    }
    if StartsWith(d, "0") {
      assert d[..1][0] == '0';
    }
  }

  /** Punctuation goes and the national `0` becomes the country code. */
  lemma NationalExample()
    ensures FormatPhone("0812-34") == "+62 81234"
  {
    var raw, d := "0812-34", "081234";
    assert raw == "0812" + "-34" && Digits("-34") == "34";
    assert AllDigits("0812");
    DigitsOfDigits("0812");
    DigitsAppend("0812", "-34");
    assert Digits(raw) == d;
    assert raw[..1] == "0" && d[..1] == "0";
    NationalZeroBecomesCountryCode(raw);
    assert Prefix + d[1..] == "+62 81234";
  }


  /** A digit string typed after a `+`: its digits are the string itself. */
  lemma {:induction false} DigitsAfterPlus(ds: string)
    requires AllDigits(ds)
    ensures Digits("+" + ds) == ds
  {
    DigitsAppend("+", ds);
    DigitsOfDigits(ds);
    assert Digits("+") == "";
  }

  /** A national number typed after a `+` keeps its leading `0`: the `+`
      switches the rewrite off and is itself stripped. */
  lemma {:induction false} PlusBeforeNationalKeepsZero(ds: string)
    requires AllDigits(ds) && StartsWith(ds, "0")
    ensures FormatPhone("+" + ds) == ds
  {
    DigitsAfterPlus(ds);
    assert ds[0] == '0';
    assert ("+" + ds)[..1] == "+";
  }

  lemma AlreadyPrefixedExample()
    ensures FormatPhone("+62812") == "+62 812"
  {
    assert Digits("+62812") == "62812";
  }

  /** A pasted `+0812` loses its `+`; the next input event then rewrites the zero. */
  lemma PlusZeroExample()
    ensures FormatPhone("+0812") == "0812"
    ensures FormatPhone("0812") == "+62 812"
  {
    assert Digits("0812") == "0812";
    assert Digits("+0812") == "0812";
  }

}
